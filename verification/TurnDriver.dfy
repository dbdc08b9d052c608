/**
 The engine that drives one turn: it feeds the kernel, commits before every effect, retries
 model calls and settles. A commit may fail and a cancellation may arrive at any await.
 */
module TurnDriver {
  import opened Wrappers
  import opened Identifiers
  import opened RuntimeEvents
  import opened KernelProtocol
  import opened TurnLog
  import Kernel
  import Reader = ModelStreamConsumer
  import CoordinatorState
  import Steps = CoordinatorSteps

  type Exit = CoordinatorState.DriverExit

  /** The kernel was fed `inputs` and is in `state`, having told `told`. */
  ghost predicate Follows(inputs: seq<Input>, state: State, told: seq<TurnMessage>, turn: TurnId, max: U32) {
    var t := Kernel.Run(inputs);
    && !t.overflowed && t.state == state && Kernel.Told(t.observations) == told
    && t.turn == turn && t.max == max
  }

  // ---- one kernel step ----

  lemma Began(turn: TurnId, user: UserMessage, max: U32)
    ensures var input := BeginTurn(turn, user, max);
            var answer := Kernel.Step(ExpectingTurnStart, input);
            && answer.Accepted? && answer.transition.observations[..1] == [TurnBegan(turn, user)]
            && answer.transition.state.ExpectingModel? && answer.transition.state.usedRounds == 0
            && answer.transition.state.maxRounds == max
            && Follows([input], answer.transition.state, [FromUser(user)], turn, max)
            && answer.transition.effect == Some(RequestModel(answer.transition.state.effect, answer.transition.state.call, [FromUser(user)], 0 < max))
  {
    hide Kernel.EffectOf, Kernel.ModelCallOf;
    var input := BeginTurn(turn, user, max);
    Kernel.RunSnoc([], input);
    assert [] + [input] == [input];
    var x := Kernel.Step(ExpectingTurnStart, input).transition;
    Kernel.ToldTwo([], x.observations[0], x.observations[1]);
    assert [] + x.observations == x.observations == [] + [x.observations[0], x.observations[1]];
  }

  lemma Answered(inputs: seq<Input>, state: State, told: seq<TurnMessage>, turn: TurnId, max: U32, output: AssistantOutput)
    requires Follows(inputs, state, told, turn, max) && state.ExpectingModel?
    ensures var input := ModelCallCompleted(state.effect, output);
            var answer := Kernel.Step(state, input);
            && (answer.Overflow? ==> max > Kernel.LARGEST_SAFE)
            && (answer.Accepted? && ContainsToolCall(output.blocks) ==>
                  var x := answer.transition;
                  && x.state.ExpectingTools? && x.state.round == state.usedRounds + 1 && state.usedRounds < max
                  && x.state.calls == Calls(output.blocks)
                  && x.effect == Some(ExecuteToolBatch(x.state.effect, x.state.batch, x.state.calls))
                  && Follows(inputs + [input], x.state, told + [AssistantToolCalls(x.state.batch, output.blocks)], turn, max))
            && (answer.Accepted? && !ContainsToolCall(output.blocks) ==>
                  answer.transition.observations == [OutputAccepted(state.call, output), TurnTerminated(TurnOutcome.Succeeded)])
  {
    hide Kernel.EffectOf, Kernel.ModelCallOf, Kernel.BatchOf, Kernel.Told, Kernel.Rounds, ValidCalls, ContainsToolCall, Calls;
    var input := ModelCallCompleted(state.effect, output);
    Kernel.RunInv(inputs);
    Kernel.RunSnoc(inputs, input);
    var answer := Kernel.Step(state, input);
    if answer.Accepted? {
      var x := answer.transition;
      Kernel.ToldTwo(Kernel.Run(inputs).observations, x.observations[0], x.observations[1]);
    }
  }

  lemma Resumed(inputs: seq<Input>, state: State, told: seq<TurnMessage>, turn: TurnId, max: U32, results: seq<ToolResult>)
    requires Follows(inputs, state, told, turn, max) && state.ExpectingTools? && MatchingResults(state.calls, results)
    ensures var input := ToolBatchCompleted(state.effect, results);
            var answer := Kernel.Step(state, input);
            && !answer.Rejected? && (answer.Overflow? ==> max > Kernel.LARGEST_SAFE)
            && (answer.Accepted? ==>
                  var x := answer.transition;
                  && x.state.ExpectingModel? && x.state.usedRounds == state.round && state.round <= max
                  && x.effect == Some(RequestModel(x.state.effect, x.state.call, told + Kernel.ResultMessages(results), state.round < max))
                  && Follows(inputs + [input], x.state, told + Kernel.ResultMessages(results), turn, max))
  {
    hide Kernel.EffectOf, Kernel.ModelCallOf, Kernel.BatchOf, Kernel.Told, Kernel.Rounds, Kernel.IsRequest, MatchingResults, Calls;
    var input := ToolBatchCompleted(state.effect, results);
    Kernel.RunInv(inputs);
    Kernel.RunSnoc(inputs, input);
    var answer := Kernel.Step(state, input);
    if answer.Accepted? {
      var x := answer.transition;
      Kernel.ToldTwo(Kernel.Run(inputs).observations, x.observations[0], x.observations[1]);
    }
  }

  lemma Stoppable(state: State, effect: EffectId, failure: TurnFailure)
    requires Kernel.Outstanding(state, effect)
    ensures Kernel.Step(state, CancelRequested(effect)).Accepted?
    ensures var answer := Kernel.Step(state, TerminationRequested(effect, failure));
            answer.Accepted? && answer.transition.observations == [FailureAccepted(effect, failure), TurnTerminated(TurnOutcome.Failed)]
  {
  }

  /** What a settled driver reports is what the log holds. */
  ghost predicate Honest(exit: Exit, settlement: AgentEvent, operation: OperationId, log: seq<Entry>, revision: nat,
                         reason: Option<CancelReason>) {
    && settlement.AgentSettled? && settlement.operationId == operation
    && match exit
       case ExitSucceeded =>
         && settlement.status == OperationStatus.Succeeded && settlement.durability.Confirmed? && settlement.revision == Committed(revision)
         && |log| >= 3 && log[|log| - 3].AssistantEntry?
         && log[|log| - 2..] == [TerminatedEntry(SucceededTurn), SettledEntry(SucceededTurn)]
       case FailedConfirmed =>
         && settlement.status == OperationStatus.Failed && settlement.durability.Confirmed? && settlement.revision == Committed(revision)
         && |log| >= 3 && log[|log| - 3].FailureEntry?
         && log[|log| - 2..] == [TerminatedEntry(FailedTurn), SettledEntry(FailedTurn)]
       case CancelledConfirmed =>
         && reason.Some? && settlement.status == OperationStatus.Cancelled && settlement.durability.Confirmed?
         && (settlement.revision == Unchanged ==> log == [])
         && (settlement.revision.Committed? ==>
               && settlement.revision.revision == revision && |log| >= 2
               && log[|log| - 2..] == [TerminatedEntry(CancelledTurn(reason.value)), SettledEntry(CancelledTurn(reason.value))])
       case FailedUnconfirmed =>
         && settlement.status == OperationStatus.Failed && settlement.durability.Unconfirmed? && settlement.revision == Unchanged
         && forall e :: e in log ==> !e.SettledEntry? && !e.TerminatedEntry?
       case _ => false
  }

  lemma SuccessIsHonest(operation: OperationId, before: seq<Entry>, texts: seq<string>, revision: nat, reason: Option<CancelReason>)
    ensures Honest(CoordinatorState.ExitSucceeded, AgentSettled(operation, OperationStatus.Succeeded, Confirmed, Committed(revision)),
                   operation, before + [AssistantEntry(texts), TerminatedEntry(SucceededTurn), SettledEntry(SucceededTurn)], revision, reason)
  {
  }

  /** The completions published for the calls of a batch that came to an end. */
  function Executed(calls: seq<ToolCall>, slots: seq<Slot>): (es: seq<AgentEvent>)
    requires |calls| == |slots|
    ensures forall e :: e in es ==> e.ToolExecutionCompleted?
  {
    if calls == [] then []
    else
      var n := |calls| - 1;
      Executed(calls[..n], slots[..n])
        + (if slots[n].Done? then [ToolExecutionCompleted(calls[n].id, Shown(slots[n].outcome))] else [])
  }

  lemma {:induction false} ExecutedBacked(batch: ToolBatchId, calls: seq<ToolCall>, slots: seq<Slot>)
    requires |calls| == |slots|
    ensures forall e :: e in Executed(calls, slots) ==> Backed(e, Marks(batch, calls, slots))
  {
    if calls != [] {
      var n := |calls| - 1;
      ExecutedBacked(batch, calls[..n], slots[..n]);
      var marks := Marks(batch, calls, slots);
      assert marks == Marks(batch, calls[..n], slots[..n]) + [marks[n]];
      forall e | e in Executed(calls, slots) ensures Backed(e, marks) {
        if e in Executed(calls[..n], slots[..n]) {
          assert Backed(e, Marks(batch, calls[..n], slots[..n]));
          BackedGrows([e], Marks(batch, calls[..n], slots[..n]), [marks[n]]);
          assert e in [e];
        } else {
          assert marks[n] in marks;
        }
      }
    }
  }

  /** The calls before `next` have been started, those in `flying` still run and, unless the batch
      is being given up, the others that were started are done. */
  ghost predicate InFlight(slots: seq<Slot>, flying: set<nat>, next: nat, givenUp: bool) {
    && next <= |slots| && (forall i :: i in flying ==> i < next)
    && (forall i :: next <= i < |slots| ==> slots[i].Unstarted?)
    && (!givenUp ==> forall i :: 0 <= i < next && i !in flying ==> slots[i].Done?)
  }

  /** The announcements of the first `n` calls. */
  function Starts(calls: seq<ToolCall>, n: nat): (es: seq<AgentEvent>)
    requires n <= |calls|
    ensures |es| == n && forall i :: 0 <= i < n ==> es[i] == ToolExecutionStarted(calls[i].id)
  {
    seq(n, i requires 0 <= i < n => ToolExecutionStarted(calls[i].id))
  }

  lemma NoStarts(calls: seq<ToolCall>)
    ensures Starts(calls, 0) == []
  {
  }

  lemma OneMoreStart(calls: seq<ToolCall>, n: nat)
    requires n < |calls|
    ensures Starts(calls, n + 1) == Starts(calls, n) + [ToolExecutionStarted(calls[n].id)]
  {
  }

  lemma NothingInFlight(n: nat, givenUp: bool)
    ensures InFlight(seq(n, i => Unstarted), {}, 0, givenUp)
  {
  }

  lemma FlyingHasSlot(slots: seq<Slot>, flying: set<nat>, next: nat, givenUp: bool, i: nat)
    requires InFlight(slots, flying, next, givenUp) && i in flying
    ensures i < |slots| && i < next <= |slots| && forall j :: next <= j < |slots| ==> slots[j].Unstarted? && j !in flying
  {
  }

  lemma AllLanded(slots: seq<Slot>, next: nat, givenUp: bool)
    requires InFlight(slots, {}, next, givenUp)
    ensures next == |slots| && !givenUp ==> AllDone(slots)
    ensures next <= |slots| && forall i :: next <= i < |slots| ==> slots[i].Unstarted?
  {
  }

  lemma OneLanded(before: seq<Slot>, after: seq<Slot>, flying: set<nat>, next: nat, i: nat, givenUp: bool, givenUp': bool)
    requires InFlight(before, flying, next, givenUp) && i in flying && |after| == |before| && (givenUp ==> givenUp')
    requires i < |after| && after == before[i := after[i]] && (!givenUp' ==> after[i].Done?)
    ensures InFlight(after, flying - {i}, next, givenUp')
  {
  }

  datatype CallOutcome = CallCompleted(blocks: seq<AssistantBlock>) | CallFailed(recoverable: bool, failure: TurnFailure) | CallSettled

  const NO_FAILURE := RuntimeDriverFailed("")

  /** The announcements of sealed turns. */
  function Seals(stale: seq<TurnId>): (es: seq<AgentEvent>)
    ensures |es| == |stale| && forall i :: 0 <= i < |stale| ==> es[i] == PriorTurnSealed(stale[i])
  {
    seq(|stale|, i requires 0 <= i < |stale| => PriorTurnSealed(stale[i]))
  }

  class TurnDriver {
    const operation: OperationId
    const turn: TurnId
    const maxRounds: U32
    const retryEnabled: bool
    const maxRetries: U32
    const maxParallel: U32

    var state: State
    var log: seq<Entry>             // what the session store holds of this turn
    var revision: nat
    var published: seq<AgentEvent>
    var reason: Option<CancelReason>
    var exit: Option<Exit>
    var sealed: seq<TurnId>         // stale turns of the session closed in the store

    ghost var inputs: seq<Input>    // what the kernel accepted
    ghost var requests: seq<Request>
    ghost var batches: seq<Batch>
    ghost var runs: nat             // how often a model call was attempted

    constructor (operation: OperationId, turn: TurnId, maxRounds: U32, retryEnabled: bool, maxRetries: U32, maxParallel: U32)
      ensures Fresh() && runs == 0
      ensures this.maxRounds == maxRounds && this.maxRetries == maxRetries && this.operation == operation && this.turn == turn
    {
      this.operation, this.turn, this.maxRounds := operation, turn, maxRounds;
      this.retryEnabled, this.maxRetries, this.maxParallel := retryEnabled, maxRetries, maxParallel;
      state, log, revision, published, reason, exit := ExpectingTurnStart, [], 0, [], None, None;
      sealed := [];
      inputs, requests, batches, runs := [], [], [], 0;
    }

    ghost predicate Fresh()
      reads this
    {
      log == [] && published == [] && exit.None? && requests == [] && batches == [] && state == ExpectingTurnStart
    }

    /** Nothing settled yet; everything announced is durable; every effect came after its commit. */
    ghost predicate Open()
      reads this
    {
      exit.None? && Unsettled(published, log) && AllBacked(published, log) && WriteAhead(requests, batches)
    }

    /** The kernel and the log tell the same conversation. */
    ghost predicate Driving()
      reads this
    {
      Open() && Follows(inputs, state, Stored(log), turn, maxRounds)
    }

    /** Settled once, as the last event, and truthfully. */
    ghost predicate Final()
      reads this
    {
      && exit.Some? && published != [] && AllBacked(published, log) && WriteAhead(requests, batches)
      && (forall e :: e in published[..|published| - 1] ==> !e.AgentSettled?)
      && Honest(exit.value, published[|published| - 1], operation, log, revision, reason)
    }

    method Push(event: AgentEvent)
      requires Open() && !event.AgentSettled? && Backed(event, log)
      modifies this`published
      ensures Open() && published == old(published) + [event]
    {
      hide Backed, WriteAhead;
      published := published + [event];
    }

    /** A cancellation may have arrived since the last look; the first reason stays. */
    method IsCancelRequested() returns (requested: bool)
      modifies this`reason
      ensures requested == reason.Some?
      ensures old(reason).Some? ==> reason == old(reason)
    {
      var arrived: bool, timeout: bool := *, *;
      if reason.None? && arrived {
        reason := Some(if timeout then Timeout else CancelReason.User);
      }
      requested := reason.Some?;
    }

    /** The store takes all of the entries or none. */
    method Commit(entries: seq<Entry>) returns (ok: bool)
      modifies this`log, this`revision
      ensures log == if ok then old(log) + entries else old(log)
      ensures if ok then revision > old(revision) else revision == old(revision)
    {
      ok := *;
      if ok {
        log, revision := log + entries, revision + 1;
      }
    }

    // ---- settling ----

    method Settle(outcome: Exit, last: AgentEvent)
      requires exit.None? && AllBacked(published, log) && WriteAhead(requests, batches)
      requires forall e :: e in published ==> !e.AgentSettled?
      requires last.AgentSettled? && Honest(outcome, last, operation, log, revision, reason)
      modifies this`exit, this`published
      ensures Final() && exit == Some(outcome) && published == old(published) + [last]
    {
      hide Honest, WriteAhead;
      exit := Some(outcome);
      published := published + [last];
      assert published[..|published| - 1] == old(published);
      assert Backed(last, log);
    }

    method FailUnconfirmed()
      requires Open()
      modifies this`exit, this`published
      ensures Final() && exit == Some(CoordinatorState.FailedUnconfirmed) && published[..|published| - 1] == old(published)
    {
      hide AllBacked, WriteAhead;
      Settle(CoordinatorState.FailedUnconfirmed, AgentSettled(operation, OperationStatus.Failed, Unconfirmed, Unchanged));
    }

    /** Requests termination of the outstanding effect and settles the failure, durably if the
        store takes it. */
    method Fail(effect: EffectId, failure: TurnFailure)
      requires Open() && Kernel.Outstanding(state, effect)
      modifies this`log, this`revision, this`exit, this`published
      ensures Final() && (exit == Some(CoordinatorState.FailedConfirmed) || exit == Some(CoordinatorState.FailedUnconfirmed))
      ensures exit == Some(CoordinatorState.FailedConfirmed) ==>
                && log == old(log) + [FailureEntry(failure), TerminatedEntry(FailedTurn), SettledEntry(FailedTurn)]
                && published[..|published| - 1] == old(published) + [TurnFailed(turn, failure.message)]
      ensures exit == Some(CoordinatorState.FailedUnconfirmed) ==> log == old(log) && published[..|published| - 1] == old(published)
    {
      hide WriteAhead, Kernel.Step;
      Stoppable(state, effect, failure);
      var termination := Kernel.Step(state, TerminationRequested(effect, failure));
      // the kernel accepts the request and its observations name the failure
      assert termination.Accepted? && FailureAccepted(effect, failure) in termination.transition.observations;
      var entries := [FailureEntry(failure), TerminatedEntry(FailedTurn), SettledEntry(FailedTurn)];
      BackedGrows(published, log, entries);
      var ok := Commit(entries);
      if ok {
        assert FailureEntry(failure) in log;
        PublishLast(TurnFailed(turn, failure.message));
        Settle(CoordinatorState.FailedConfirmed, AgentSettled(operation, OperationStatus.Failed, Confirmed, Committed(revision)));
      } else {
        FailUnconfirmed();
      }
    }

    /** Announces how the turn ended, just before the settlement itself. */
    method PublishLast(event: AgentEvent)
      requires AllBacked(published, log) && Backed(event, log) && !event.AgentSettled?
      requires forall e :: e in published ==> !e.AgentSettled?
      modifies this`published
      ensures AllBacked(published, log) && published == old(published) + [event]
      ensures forall e :: e in published ==> !e.AgentSettled?
    {
      hide Backed;
      published := published + [event];
    }

    /** Cancels the outstanding effect: the marks of a stopped batch and the two terminal entries
        go into one commit. Without the durable fact the operation is not reported cancelled. */
    method Cancel(effect: EffectId, marks: seq<Entry>, executed: seq<AgentEvent>)
      requires Open() && Kernel.Outstanding(state, effect) && reason.Some?
      requires forall m :: m in marks ==> m.ResultEntry?
      requires forall e :: e in executed ==> e.ToolExecutionCompleted? && Backed(e, marks)
      modifies this`log, this`revision, this`exit, this`published
      ensures Final()
      ensures exit == Some(CoordinatorState.CancelledConfirmed) ==>
                && log == old(log) + (marks + [TerminatedEntry(CancelledTurn(reason.value)), SettledEntry(CancelledTurn(reason.value))])
                && published[..|published| - 1] == old(published) + executed + [TurnCancelled(turn, reason.value)]
    {
      hide WriteAhead, Kernel.Step, Backed;
      Stoppable(state, effect, NO_FAILURE);
      // the kernel accepts the request
      assert Kernel.Step(state, CancelRequested(effect)).Accepted?;
      var outcome := CancelledTurn(reason.value);
      var entries := marks + [TerminatedEntry(outcome), SettledEntry(outcome)];
      BackedGrows(published, log, entries);
      CommittedMarksBack(executed, log, marks, [TerminatedEntry(outcome), SettledEntry(outcome)]);
      var ok := Commit(entries);
      if ok {
        AnnounceCancelled(executed);
        assert log[|log| - 2..] == [TerminatedEntry(outcome), SettledEntry(outcome)];
        Settle(CoordinatorState.CancelledConfirmed, AgentSettled(operation, OperationStatus.Cancelled, Confirmed, Committed(revision)));
      } else {
        Fail(effect, PersistenceFailed("committing cancellation"));
      }
    }

    method AnnounceCancelled(executed: seq<AgentEvent>)
      requires AllBacked(published, log) && AllBacked(executed, log) && reason.Some?
      requires TerminatedEntry(CancelledTurn(reason.value)) in log
      requires forall e :: e in published ==> !e.AgentSettled?
      requires forall e :: e in executed ==> e.ToolExecutionCompleted?
      modifies this`published
      ensures AllBacked(published, log) && published == old(published) + executed + [TurnCancelled(turn, reason.value)]
      ensures forall e :: e in published ==> !e.AgentSettled?
    {
      for i := 0 to |executed|
        invariant AllBacked(published, log) && published == old(published) + executed[..i]
        invariant forall e :: e in published ==> !e.AgentSettled?
      {
        assert executed[i] in executed && executed[..i + 1] == executed[..i] + [executed[i]];
        PublishLast(executed[i]);
      }
      assert executed[..|executed|] == executed;
      PublishLast(TurnCancelled(turn, reason.value));
    }

    lemma CommittedMarksBack(executed: seq<AgentEvent>, before: seq<Entry>, marks: seq<Entry>, last: seq<Entry>)
      requires forall e :: e in executed ==> e.ToolExecutionCompleted? && Backed(e, marks)
      ensures AllBacked(executed, before + (marks + last))
    {
      forall e | e in executed ensures Backed(e, before + (marks + last)) {
        assert Backed(e, marks);
        var x :| x in marks && x.ResultEntry? && x.callId == e.toolCallId && x.slot.Done? && Shown(x.slot.outcome) == e.result;
        assert x in before + (marks + last);
      }
    }

    /** Cancellation was seen while `effect` was outstanding and nothing of it is to be kept. */
    method StopHere(effect: EffectId)
      requires Open() && Kernel.Outstanding(state, effect) && reason.Some?
      modifies this`log, this`revision, this`exit, this`published
      ensures Final()
    {
      Push(CancellationRequested(operation, reason.value));
      Cancel(effect, [], []);
    }

    // ---- one model call ----

    /** Reads one model stream, passing its events on. */
    method Consume(call: ModelCallId, polls: seq<Reader.Poll>) returns (attempt: Reader.Attempt)
      requires Open()
      modifies this`published
      ensures Open() && attempt == Reader.Read(polls, false, None)
      ensures published == old(published) + Reader.Heard(call, polls, false, false)
    {
      hide WriteAhead, AllBacked, Reader.Passed;
      var started, completed := false, None;
      for i := 0 to |polls|
        invariant Open() && Reader.Read(polls, false, None) == Reader.Read(polls[i..], started, completed)
        invariant old(published) + Reader.Heard(call, polls, false, false)
               == published + Reader.Heard(call, polls[i..], started, completed.Some?)
      {
        assert polls[i..][1..] == polls[i + 1..];
        match polls[i]
        case CancelObserved =>
          return Reader.AttemptCancelled;
        case StreamError(recoverable, message) =>
          return Reader.AttemptFailed(recoverable, ModelCallFailed(message));
        case Event(event) =>
          if completed.Some? {
            return Reader.Violation(if event.Completed? then "model stream emitted Completed more than once"
                                    else "model stream emitted output after Completed");
          }
          if event.Completed? {
            completed := Some(event.blocks);
          } else if event.ResponseStarted? {
            if started {
              return Reader.Violation("model stream emitted ResponseStarted more than once");
            }
            started := true;
          }
          ghost var before := published;
          PassOn(call, event);
          HeardOneMore(before, call, polls[i..], event, started, completed.Some?);
      }
      if completed.None? {
        return Reader.Violation("model stream ended before Completed");
      }
      return Reader.Assembled(completed.value);
    }

    lemma HeardOneMore(before: seq<AgentEvent>, call: ModelCallId, polls: seq<Reader.Poll>, event: Reader.ModelEvent,
                       started: bool, completed: bool)
      requires polls != [] && polls[0] == Reader.Event(event) && completed == event.Completed?
      requires event.ResponseStarted? ==> started
      ensures before + Reader.Heard(call, polls, started && !event.ResponseStarted?, false)
           == (before + Reader.Passed(call, event)) + Reader.Heard(call, polls[1..], started, completed)
    {
    }

    method PassOn(call: ModelCallId, event: Reader.ModelEvent)
      requires Open()
      modifies this`published
      ensures Open() && published == old(published) + Reader.Passed(call, event)
    {
      hide WriteAhead, AllBacked;
      match event
      case ResponseStarted => Push(AgentEvent.ModelResponseStarted(call));
      case TextDelta(delta) => Push(AgentEvent.TextDelta(delta));
      case ReasoningDelta(text) => Push(AgentEvent.ReasoningDelta(call, text));
      case UsageUpdated(usage) => Push(ModelUsageUpdated(call, usage));
      case _ =>
    }

    /** The request goes out: what it shows the model is durable. */
    ghost method NoteRequest(messages: seq<TurnMessage>)
      requires Open() && messages == Stored(log)
      modifies this`requests
      ensures Open() && requests == old(requests) + [Request(messages, log)]
    {
      hide AllBacked;
      requests := requests + [Request(messages, log)];
    }

    /** One attempt of a model call. Only a cancellation settles here. */
    method RunModelCall(effect: EffectId, call: ModelCallId, messages: seq<TurnMessage>) returns (outcome: CallOutcome)
      requires Driving() && state.ExpectingModel? && effect == state.effect && messages == Stored(log)
      modifies this
      ensures runs == old(runs) + 1
      ensures requests == old(requests) || requests == old(requests) + [Request(messages, old(log))]
      ensures outcome.CallSettled? ==> Final()
      ensures !outcome.CallSettled? ==>
                Driving() && state == old(state) && log == old(log) && inputs == old(inputs) && revision == old(revision)
    {
      hide WriteAhead, AllBacked, Follows, Unsettled, Honest;
      runs := runs + 1;
      var cancelled := IsCancelRequested();
      if cancelled {
        StopHere(effect);
        return CallSettled;
      }
      Push(ModelCallStarted(call));
      NoteRequest(messages);
      var begins: bool, advice: bool, message: string := *, *, *;
      if !begins {
        return CallFailed(advice, ModelCallFailed(message));
      }
      var polls: seq<Reader.Poll> := *;
      var attempt := Consume(call, polls);
      match attempt
      case Assembled(blocks) =>
        return CallCompleted(blocks);
      case AttemptFailed(recoverable, failure) =>
        return CallFailed(recoverable, failure);
      case AttemptCancelled =>
        CancelArrived();
        StopHere(effect);
        return CallSettled;
    }

    /** A wait ended because of a cancellation. */
    method CancelArrived()
      modifies this`reason
      ensures reason.Some? && (old(reason).Some? ==> reason == old(reason))
    {
      var timeout: bool := *;
      if reason.None? {
        reason := Some(if timeout then Timeout else CancelReason.User);
      }
    }

    /** Drives one model call under the recovery policy: at most one attempt and `maxRetries`
        repetitions, each with the identical request and nothing durable in between. */
    method RunWithRecovery(effect: EffectId, call: ModelCallId, messages: seq<TurnMessage>) returns (blocks: Option<seq<AssistantBlock>>)
      requires Driving() && state.ExpectingModel? && effect == state.effect && messages == Stored(log)
      modifies this
      ensures old(runs) < runs <= old(runs) + 1 + maxRetries
      ensures !retryEnabled ==> runs == old(runs) + 1
      ensures old(requests) <= requests && forall i :: |old(requests)| <= i < |requests| ==> requests[i] == Request(messages, old(log))
      ensures blocks.None? ==> Final()
      ensures blocks.Some? ==>
                Driving() && state == old(state) && log == old(log) && inputs == old(inputs) && revision == old(revision)
    {
      hide WriteAhead, AllBacked, Follows, Unsettled, Honest;
      var attempt := 0;
      while true
        invariant attempt <= maxRetries && runs == old(runs) + attempt && (!retryEnabled ==> attempt == 0)
        invariant old(requests) <= requests && forall i :: |old(requests)| <= i < |requests| ==> requests[i] == Request(messages, old(log))
        invariant Driving() && state == old(state) && log == old(log) && inputs == old(inputs) && revision == old(revision)
        decreases maxRetries - attempt
      {
        var outcome := RunModelCall(effect, call, messages);
        match outcome {
          case CallCompleted(answer) =>
            return Some(answer);
          case CallSettled =>
            return None;
          case CallFailed(recoverable, failure) =>
            var exhausted := !retryEnabled || !recoverable || attempt >= maxRetries;
            var cancelled := false;
            if !exhausted {
              cancelled := IsCancelRequested();
            }
            if cancelled {
              StopHere(effect);
              return None;
            }
            if exhausted {
              Fail(effect, failure);
              return None;
            }
            attempt := attempt + 1;
            Push(ModelRetryScheduled(call, attempt));
            var interrupted: bool := *;
            if interrupted {
              CancelArrived();
              StopHere(effect);
              return None;
            }
        }
      }
    }

    // ---- one tool batch ----

    method PublishStarted(call: ToolCall)
      requires Open()
      modifies this`published
      ensures Open() && published == old(published) + [ToolExecutionStarted(call.id)]
    {
      hide WriteAhead, AllBacked;
      Push(ToolExecutionStarted(call.id));
    }

    /** Runs the calls one after the other. A call that stops without a cancellation is a fault. */
    method ExecuteSerially(calls: seq<ToolCall>) returns (slots: seq<Slot>, fault: bool, ghost started: nat)
      requires Open()
      modifies this`published, this`reason
      ensures Open() && |slots| == |calls| && (!fault && !AllDone(slots) ==> reason.Some?)
      ensures started <= |calls| && published == old(published) + Starts(calls, started)
      ensures forall i :: started <= i < |calls| ==> slots[i].Unstarted?
      ensures old(reason).Some? ==> reason == old(reason)
    {
      hide WriteAhead, AllBacked, Starts;
      slots, fault, started := seq(|calls|, i => Unstarted), false, 0;
      NoStarts(calls);
      for i := 0 to |calls|
        invariant Open() && |slots| == |calls| && !fault && started == i
        invariant published == old(published) + Starts(calls, i)
        invariant forall j :: 0 <= j < i ==> slots[j].Done?
        invariant forall j :: i <= j < |calls| ==> slots[j].Unstarted?
        invariant old(reason).Some? ==> reason == old(reason)
      {
        var cancelled := IsCancelRequested();
        if cancelled {
          return;
        }
        OneMoreStart(calls, i);
        PublishStarted(calls[i]);
        started := i + 1;
        var finished: Option<ToolOutcome> := *;
        if finished.Some? {
          slots := slots[i := Done(finished.value)];
        } else {
          cancelled := IsCancelRequested();
          if cancelled {
            slots := slots[i := Stopped];
          } else {
            fault := true;
          }
          return;
        }
      }
    }

    /** Runs up to `limit` calls at a time; they finish in any order, and every outcome goes to
        the slot of its own call. */
    method ExecuteInParallel(calls: seq<ToolCall>, limit: nat) returns (slots: seq<Slot>, fault: bool, ghost started: nat)
      requires Open() && limit >= 1
      modifies this`published, this`reason
      ensures Open() && |slots| == |calls| && (!fault && !AllDone(slots) ==> reason.Some?)
      ensures started <= |calls| && published == old(published) + Starts(calls, started)
      ensures forall i :: started <= i < |calls| ==> slots[i].Unstarted?
      ensures old(reason).Some? ==> reason == old(reason)
    {
      hide WriteAhead, AllBacked, Unsettled, InFlight, Starts;
      slots, fault, started := seq(|calls|, i => Unstarted), false, 0;
      NoStarts(calls);
      NothingInFlight(|calls|, fault || reason.Some?);
      var flying: set<nat>, next, stopping := {}, 0, false;
      while true
        invariant Open() && |slots| == |calls| && |flying| <= limit && (stopping ==> fault || reason.Some?)
        invariant InFlight(slots, flying, next, fault || reason.Some?)
        invariant next <= |calls| && published == old(published) + Starts(calls, next)
        invariant old(reason).Some? ==> reason == old(reason)
        decreases 2 * (|calls| - next) + |flying|
      {
        flying, next, stopping := StartMore(old(published), calls, limit, slots, flying, next, stopping, fault);
        started := next;
        if flying == {} {
          AllLanded(slots, next, fault || reason.Some?);
          return;
        }
        var graceOver: bool := *;
        if reason.Some? && graceOver {
          var all := flying;
          var some: nat :| some in flying;
          FlyingHasSlot(slots, flying, next, fault || reason.Some?, some);
          slots := seq(|slots|, i requires 0 <= i < |slots| => if i in all then Stopped else slots[i]);
          return;
        }
        var i: nat :| i in flying;
        ghost var excused, before := fault || reason.Some?, slots;
        FlyingHasSlot(slots, flying, next, excused, i);
        var ended;
        slots, ended := FinishOne(slots, i, flying, next);
        fault := fault || (ended && reason.None?);
        stopping := stopping || ended;
        OneLanded(before, slots, flying, next, i, excused, fault || reason.Some?);
        flying := flying - {i};
      }
    }

    /** Starts calls while there is room and no cancellation. */
    method StartMore(ghost before: seq<AgentEvent>, calls: seq<ToolCall>, limit: nat, ghost slots: seq<Slot>, flying0: set<nat>, next0: nat, stopping0: bool, ghost fault: bool)
      returns (flying: set<nat>, next: nat, stopping: bool)
      requires Open() && |slots| == |calls| && |flying0| <= limit && InFlight(slots, flying0, next0, fault || reason.Some?)
      requires stopping0 ==> fault || reason.Some?
      requires next0 <= |calls| && published == before + Starts(calls, next0)
      modifies this`published, this`reason
      ensures Open() && |flying| <= limit && InFlight(slots, flying, next, fault || reason.Some?)
      ensures stopping ==> fault || reason.Some?
      ensures next <= |calls| && published == before + Starts(calls, next)
      ensures !stopping ==> |flying| == limit || next == |calls|
      ensures 2 * (|calls| - next) + |flying| <= 2 * (|calls| - next0) + |flying0|
      ensures old(reason).Some? ==> reason == old(reason)
    {
      hide WriteAhead, AllBacked, Unsettled, Starts;
      flying, next := flying0, next0;
      var cancelled := IsCancelRequested();
      stopping := stopping0 || cancelled;
      while !stopping && |flying| < limit && next < |calls|
        invariant Open() && |flying| <= limit && (stopping ==> fault || reason.Some?)
        invariant InFlight(slots, flying, next, fault || reason.Some?)
        invariant next <= |calls| && published == before + Starts(calls, next)
        invariant old(reason).Some? ==> reason == old(reason)
        invariant 2 * (|calls| - next) + |flying| <= 2 * (|calls| - next0) + |flying0|
        decreases |calls| - next, !stopping
      {
        cancelled := IsCancelRequested();
        if cancelled {
          stopping := true;
        } else {
          OneMoreStart(calls, next);
          PublishStarted(calls[next]);
          flying, next := flying + {next}, next + 1;
        }
      }
    }

    /** One of the calls in flight comes to an end: done, stopped by a cancellation, or faulty. */
    method FinishOne(slots: seq<Slot>, i: nat, ghost flying: set<nat>, ghost next: nat) returns (after: seq<Slot>, ended: bool)
      requires i < |slots|
      modifies this`reason
      ensures old(reason).Some? ==> reason == old(reason)
      ensures |after| == |slots| && after == slots[i := after[i]] && (!ended ==> after[i].Done?)
      ensures ended ==> after == if reason.Some? then slots[i := Stopped] else slots
    {
      after, ended := slots, false;
      var finished: Option<ToolOutcome> := *;
      if finished.Some? {
        after := slots[i := Done(finished.value)];
      } else {
        ended := true;
        var cancelled := IsCancelRequested();
        if cancelled {
          after := slots[i := Stopped];
        }
      }
    }

    /** The batch starts: its request is the last durable fact. */
    ghost method NoteBatch(calls: seq<ToolCall>)
      requires Open() && log != [] && log[|log| - 1].BatchEntry? && Calls(log[|log| - 1].blocks) == calls
      modifies this`batches
      ensures Open() && batches == old(batches) + [Batch(calls, log)]
    {
      hide AllBacked;
      batches := batches + [Batch(calls, log)];
    }

    /** Executes a committed batch and makes its results durable, in call order. */
    method RunBatch(effect: EffectId, batch: ToolBatchId, calls: seq<ToolCall>) returns (slots: Option<seq<Slot>>)
      requires Open() && Kernel.Outstanding(state, effect)
      requires log != [] && log[|log| - 1].BatchEntry? && Calls(log[|log| - 1].blocks) == calls
      modifies this
      ensures runs == old(runs)
      ensures slots.None? ==> Final()
      ensures slots.Some? ==>
                && Open() && |slots.value| == |calls| && AllDone(slots.value)
                && log == old(log) + Marks(batch, calls, slots.value) && state == old(state) && inputs == old(inputs)
    {
      hide WriteAhead, AllBacked, Unsettled, Honest, Backed;
      NoteBatch(calls);
      var outcomes, fault;
      ghost var started;
      if maxParallel <= 1 {
        outcomes, fault, started := ExecuteSerially(calls);
      } else {
        outcomes, fault, started := ExecuteInParallel(calls, maxParallel);
      }
      if fault {
        Fail(effect, ToolExecutionFailed("tool execution infrastructure fault"));
        return None;
      }
      var cancelled := IsCancelRequested();
      if cancelled || exists i :: 0 <= i < |outcomes| && !outcomes[i].Done? {
        CancelBatch(effect, batch, calls, outcomes);
        return None;
      }
      slots := CommitResults(effect, batch, calls, outcomes);
    }

    method CancelBatch(effect: EffectId, batch: ToolBatchId, calls: seq<ToolCall>, slots: seq<Slot>)
      requires Open() && Kernel.Outstanding(state, effect) && reason.Some? && |calls| == |slots|
      modifies this`log, this`revision, this`exit, this`published
      ensures Final()
      ensures exit == Some(CoordinatorState.CancelledConfirmed) ==>
                && old(log) + Marks(batch, calls, slots) <= log
                && published[..|published| - 1] == old(published) + [CancellationRequested(operation, reason.value)]
                                                   + Executed(calls, slots) + [TurnCancelled(turn, reason.value)]
    {
      hide WriteAhead, AllBacked, Unsettled, Honest;
      Push(CancellationRequested(operation, reason.value));
      ExecutedBacked(batch, calls, slots);
      Cancel(effect, Marks(batch, calls, slots), Executed(calls, slots));
    }

    method CommitResults(effect: EffectId, batch: ToolBatchId, calls: seq<ToolCall>, slots: seq<Slot>) returns (done: Option<seq<Slot>>)
      requires Open() && Kernel.Outstanding(state, effect) && |calls| == |slots| && AllDone(slots)
      modifies this`log, this`revision, this`exit, this`published, this`reason
      ensures done.None? ==> Final()
      ensures done.Some? ==>
                && Open() && done.value == slots && log == old(log) + Marks(batch, calls, slots)
                && published == old(published) + Executed(calls, slots)
    {
      hide WriteAhead, AllBacked, Honest, Backed;
      var cancelled := IsCancelRequested();
      if cancelled {
        CancelBatch(effect, batch, calls, slots);
        return None;
      }
      BackedGrows(published, log, Marks(batch, calls, slots));
      ghost var before := log;
      var ok := Commit(Marks(batch, calls, slots));
      if !ok {
        Fail(effect, PersistenceFailed("committing tool results"));
        return None;
      }
      ExecutedBacked(batch, calls, slots);
      assert before + (Marks(batch, calls, slots) + []) == log;
      CommittedMarksBack(Executed(calls, slots), before, Marks(batch, calls, slots), []);
      AnnounceCompleted(Executed(calls, slots));
      return Some(slots);
    }

    method AnnounceCompleted(events: seq<AgentEvent>)
      requires Open() && AllBacked(events, log) && forall e :: e in events ==> e.ToolExecutionCompleted?
      modifies this`published
      ensures Open() && published == old(published) + events
    {
      hide WriteAhead, Unsettled;
      for i := 0 to |events|
        invariant Open() && published == old(published) + events[..i]
      {
        assert events[i] in events && events[..i + 1] == events[..i] + [events[i]];
        Push(events[i]);
      }
      assert events[..|events|] == events;
    }

    // ---- the turn ----

    /** Commits the final answer and settles; a failed commit fails the outstanding effect. */
    method SettleSuccess(effect: EffectId, output: AssistantOutput)
      requires Open() && Kernel.Outstanding(state, effect)
      modifies this`log, this`revision, this`exit, this`published
      ensures Final() && exit != Some(CoordinatorState.CancelledConfirmed)
      ensures exit == Some(CoordinatorState.ExitSucceeded) ==>
                && log == old(log) + [AssistantEntry(TextsOf(output.blocks)), TerminatedEntry(SucceededTurn), SettledEntry(SucceededTurn)]
                && published[..|published| - 1] == old(published) + [AssistantMessageCompleted(turn, Concat(TextsOf(output.blocks)))]
    {
      hide WriteAhead, AllBacked, Honest, Kernel.Outstanding, TextsOf, Concat, Final;
      var entries := [AssistantEntry(TextsOf(output.blocks)), TerminatedEntry(SucceededTurn), SettledEntry(SucceededTurn)];
      BackedGrows(published, log, entries);
      ghost var before := log;
      var ok := Commit(entries);
      if !ok {
        Fail(effect, PersistenceFailed("committing successful settlement"));
        return;
      }
      assert log == before + entries;
      assert log[|before|] == AssistantEntry(TextsOf(output.blocks));
      assert AssistantEntry(TextsOf(output.blocks)) in log;
      PublishLast(AssistantMessageCompleted(turn, Concat(TextsOf(output.blocks))));
      SuccessIsHonest(operation, before, TextsOf(output.blocks), revision, reason);
      Settle(CoordinatorState.ExitSucceeded, AgentSettled(operation, OperationStatus.Succeeded, Confirmed, Committed(revision)));
    }

    /** One round: a model call and, if it asks for tools, the batch. The kernel's state moves past
        the answer only once the request is durable, so a failure in between still names the model
        effect. */
    method Round(request: Effect) returns (next: Option<Effect>, panicked: bool)
      requires Driving() && state.ExpectingModel? && request.RequestModel? && request.id == state.effect
      requires request.messages == Stored(log)
      modifies this
      ensures old(runs) < runs <= old(runs) + 1 + maxRetries
      ensures next.Some? ==>
                && Driving() && state.ExpectingModel? && old(state.usedRounds) < maxRounds && state.usedRounds == old(state.usedRounds) + 1
                && next.value.RequestModel? && next.value.id == state.effect && next.value.messages == Stored(log)
      ensures next.None? && !panicked ==> Final()
      ensures panicked ==> exit.None? && maxRounds > Kernel.LARGEST_SAFE
    {
      hide WriteAhead, AllBacked, Follows, Unsettled, Honest, Kernel.Step, Calls, ContainsToolCall;
      next, panicked := None, false;
      var blocks := RunWithRecovery(request.id, request.call, request.messages);
      if blocks.None? {
        return;
      }
      if exists i :: 0 <= i < |blocks.value| && blocks.value[i] == AssistantBlock.Text("") {
        Fail(request.id, InvalidModelOutput("model produced an empty text block"));
        return;
      }
      var output := AssistantOutput(blocks.value, false);
      Answered(inputs, state, Stored(log), turn, maxRounds, output);
      var answer := Kernel.Step(state, ModelCallCompleted(request.id, output));
      if answer.Overflow? {
        return None, true;
      }
      if answer.Rejected? {
        Fail(request.id, InvalidModelOutput("kernel rejected model output"));
        return;
      }
      if Calls(output.blocks) == [] {
        ContainedCallsExtracted(output.blocks);
        SettleSuccess(request.id, output);
        return;
      }
      ContainedCallsExtracted(output.blocks);
      next, panicked := RunTools(answer.transition, request, output);
    }

    /** Barrier B, the batch, barrier C, and back to the model. */
    method RunTools(accepted: Transition, request: Effect, output: AssistantOutput) returns (next: Option<Effect>, panicked: bool)
      requires Driving() && state.ExpectingModel? && request.RequestModel? && request.id == state.effect
      requires accepted.state.ExpectingTools? && accepted.state.round == state.usedRounds + 1 && state.usedRounds < maxRounds
      requires accepted.state.calls == Calls(output.blocks)
      requires accepted.effect == Some(ExecuteToolBatch(accepted.state.effect, accepted.state.batch, accepted.state.calls))
      requires Follows(inputs + [ModelCallCompleted(request.id, output)], accepted.state,
                       Stored(log) + [AssistantToolCalls(accepted.state.batch, output.blocks)], turn, maxRounds)
      modifies this
      ensures runs == old(runs)
      ensures next.Some? ==>
                && Driving() && state.ExpectingModel? && state.usedRounds == old(state.usedRounds) + 1
                && next.value.RequestModel? && next.value.id == state.effect && next.value.messages == Stored(log)
      ensures next.None? && !panicked ==> Final()
      ensures panicked ==> exit.None? && maxRounds > Kernel.LARGEST_SAFE
    {
      hide WriteAhead, AllBacked, Follows, Unsettled, Honest, Kernel.Step, Calls, Backed, Stored;
      next, panicked := None, false;
      var effect := accepted.effect.value;
      var ok := CommitBatch(request, effect.batch, output.blocks);
      if !ok {
        Fail(request.id, PersistenceFailed("committing tool calls"));
        return;
      }
      inputs := inputs + [ModelCallCompleted(request.id, output)];
      state := accepted.state;
      Push(AgentEvent.ToolBatchRequested(effect.batch.value, |effect.calls|));
      ghost var told, before := Stored(log), log;
      var slots := RunBatch(effect.id, effect.batch, effect.calls);
      if slots.None? {
        return;
      }
      StoredResults(before, effect.batch, effect.calls, slots.value);
      next, panicked := Resume(effect, slots.value, told);
    }

    method CommitBatch(request: Effect, batch: ToolBatchId, blocks: seq<AssistantBlock>) returns (ok: bool)
      requires Open() && request.RequestModel?
      modifies this`log, this`revision
      ensures Open() && log == if ok then old(log) + [BatchEntry(request.call, batch, blocks)] else old(log)
      ensures ok ==> Stored(log) == Stored(old(log)) + [AssistantToolCalls(batch, blocks)]
      ensures ok ==> Backed(AgentEvent.ToolBatchRequested(batch.value, |Calls(blocks)|), log)
    {
      hide WriteAhead, AllBacked, Stored, Calls;
      var entry := BatchEntry(request.call, batch, blocks);
      BackedGrows(published, log, [entry]);
      StoredSnoc(log, entry);
      ok := Commit([entry]);
      assert ok ==> entry in log;
    }

    /** Hands the durable results to the kernel, which asks for the next model call. */
    method Resume(effect: Effect, slots: seq<Slot>, ghost told: seq<TurnMessage>) returns (next: Option<Effect>, panicked: bool)
      requires Open() && effect.ExecuteToolBatch? && state.ExpectingTools? && effect.id == state.effect
      requires effect.calls == state.calls && |slots| == |effect.calls| && AllDone(slots)
      requires Follows(inputs, state, told, turn, maxRounds)
      requires Stored(log) == told + Kernel.ResultMessages(Results(effect.calls, slots))
      modifies this`inputs, this`state
      ensures next.None? ==> panicked
      ensures panicked ==> exit.None? && maxRounds > Kernel.LARGEST_SAFE
      ensures next.Some? ==>
                && Driving() && state.ExpectingModel? && state.usedRounds == old(state.round)
                && next.value.RequestModel? && next.value.id == state.effect && next.value.messages == Stored(log)
    {
      hide WriteAhead, AllBacked, Follows, Unsettled, Kernel.Step, Stored;
      var results := Results(effect.calls, slots);
      Resumed(inputs, state, told, turn, maxRounds, results);
      var answer := Kernel.Step(state, ToolBatchCompleted(effect.id, results));
      // the kernel does not reject results that come back one per call, in call order
      assert !answer.Rejected?;
      if answer.Overflow? {
        return None, true;
      }
      inputs := inputs + [ToolBatchCompleted(effect.id, results)];
      state := answer.transition.state;
      return answer.transition.effect, false;
    }

    /** Drives the operation to its settlement: stale turns of the session are sealed, the context
        is compacted if need be, and the turn runs. Only 32-bit overflow under an extreme round
        limit leaves it without a settlement, as a panic. */
    method Drive(user: UserMessage, stale: seq<TurnId>) returns (result: Exit)
      requires Fresh() && runs == 0
      modifies this
      ensures result.Panicked? ==> maxRounds > Kernel.LARGEST_SAFE
      ensures !result.Panicked? ==> Final() && exit == Some(result)
      ensures runs <= (maxRounds + 1) * (maxRetries + 1)
    {
      hide Follows, Honest, Kernel.Step, WriteAhead, AllBacked, Unsettled, Driving, Open;
      StartsOpen();
      PushStarted();
      var ready := Prepare(stale);
      if !ready {
        SettledWithoutPanic();
        return exit.value;
      }
      var first := Begin(user);
      if first.None? {
        SettledWithoutPanic();
        return exit.value;
      }
      result := Loop(first.value);
    }

    lemma StartsOpen()
      requires Fresh()
      ensures Open()
    {
    }

    method PushStarted()
      requires Open()
      modifies this`published
      ensures Open()
    {
      hide AllBacked, WriteAhead, Unsettled;
      Push(OperationStarted(operation));
    }

    /** What comes before the turn. If it fails or a cancellation is seen there, the operation is
        settled and the turn leaves no trace. */
    method Prepare(stale: seq<TurnId>) returns (ready: bool)
      requires Open() && log == []
      modifies this`log, this`revision, this`sealed, this`reason, this`exit, this`published
      ensures log == [] && (if ready then Open() && sealed == old(sealed) + stale else Final())
    {
      hide AllBacked, WriteAhead, Unsettled, Honest;
      var readable: bool := *;
      if !readable {
        FailUnconfirmed();
        return false;
      }
      ready := SealStaleTurns(stale);
      if ready {
        ready := CompactFirst();
      }
    }

    /** Closes each stale turn by a commit of its own, and announces them when all are closed. */
    method SealStaleTurns(stale: seq<TurnId>) returns (ok: bool)
      requires Open() && log == []
      modifies this`log, this`revision, this`sealed, this`exit, this`published
      ensures log == []
      ensures ok ==> Open() && sealed == old(sealed) + stale && published == old(published) + Seals(stale)
      ensures !ok ==> Final() && exit == Some(CoordinatorState.FailedUnconfirmed) && published[..|published| - 1] == old(published)
      ensures !ok ==> exists n :: 0 <= n <= |stale| && sealed == old(sealed) + stale[..n]
    {
      hide AllBacked, WriteAhead, Unsettled, Honest;
      for i := 0 to |stale|
        invariant Open() && log == [] && published == old(published) && sealed == old(sealed) + stale[..i]
      {
        var committed := Commit([]);
        if !committed {
          FailUnconfirmed();
          return false;
        }
        sealed := sealed + [stale[i]];
        assert stale[..i + 1] == stale[..i] + [stale[i]];
      }
      assert stale[..|stale|] == stale;
      var readable: bool := *;
      if stale != [] && !readable {
        FailUnconfirmed();
        return false;
      }
      AnnounceSeals(stale);
      return true;
    }

    method AnnounceSeals(stale: seq<TurnId>)
      requires Open()
      modifies this`published
      ensures Open() && published == old(published) + Seals(stale)
    {
      hide AllBacked, WriteAhead, Unsettled;
      for i := 0 to |stale|
        invariant Open() && published == old(published) + Seals(stale[..i])
      {
        Push(PriorTurnSealed(stale[i]));
        assert Seals(stale[..i + 1]) == Seals(stale[..i]) + [PriorTurnSealed(stale[i])];
      }
      assert stale[..|stale|] == stale;
    }

    /** Perhaps replaces an earlier part of the context by a summary. That it fails does not matter
        to the turn; a cancellation seen here does. */
    method CompactFirst() returns (ready: bool)
      requires Open() && log == []
      modifies this`log, this`revision, this`reason, this`exit, this`published
      ensures log == []
      ensures if ready then Open()
              else Final() && (exit == Some(CoordinatorState.CancelledConfirmed) || exit == Some(CoordinatorState.FailedUnconfirmed))
    {
      hide AllBacked, WriteAhead, Unsettled, Honest;
      var wanted: bool, summarized: bool, interrupted: bool, readable: bool := *, *, *, *;
      if !wanted {
        return true;
      }
      Push(ContextCompaction("started"));
      if interrupted {
        CancelArrived();
        CancelZeroTrace();
        return false;
      }
      if !summarized {
        Push(ContextCompaction("failed"));
        return true;
      }
      var cancelled := IsCancelRequested();
      if cancelled {
        CancelZeroTrace();
        return false;
      }
      var committed := Commit([]);
      if !committed {
        Push(ContextCompaction("failed"));
        return true;
      }
      Push(ContextCompaction("completed"));
      cancelled := IsCancelRequested();
      if cancelled {
        CancelZeroTrace();
        return false;
      }
      if !readable {
        FailUnconfirmed();
        return false;
      }
      return true;
    }

    /** The turn begins: its first commit, and the first request of the kernel. */
    method Begin(user: UserMessage) returns (first: Option<Effect>)
      requires Open() && log == [] && state == ExpectingTurnStart && runs == 0
      modifies this`log, this`revision, this`reason, this`exit, this`published, this`inputs, this`state
      ensures first.None? ==> Final()
      ensures first.Some? ==>
                && Driving() && state.ExpectingModel? && state.usedRounds == 0 && first.value.RequestModel?
                && first.value.id == state.effect && first.value.messages == Stored(log)
    {
      hide Follows, Honest, Kernel.Step, WriteAhead, AllBacked, Unsettled;
      Push(TurnStarted(turn));
      Began(turn, user, maxRounds);
      var started := Kernel.Step(ExpectingTurnStart, BeginTurn(turn, user, maxRounds)).transition;
      var cancelled := IsCancelRequested();
      if cancelled {
        CancelZeroTrace();
        return None;
      }
      var ok := Start(user);
      if !ok {
        FailUnconfirmed();
        return None;
      }
      inputs := [BeginTurn(turn, user, maxRounds)];
      state := started.state;
      return Some(started.effect.value);
    }

    /** A cancellation before the first commit leaves no durable trace. */
    method CancelZeroTrace()
      requires Open() && reason.Some? && log == []
      modifies this`exit, this`published
      ensures Final() && exit == Some(CoordinatorState.CancelledConfirmed)
    {
      hide AllBacked, WriteAhead;
      Push(CancellationRequested(operation, reason.value));
      Settle(CoordinatorState.CancelledConfirmed, AgentSettled(operation, OperationStatus.Cancelled, Confirmed, Unchanged));
    }

    method Start(user: UserMessage) returns (ok: bool)
      requires Open() && log == []
      modifies this`log, this`revision
      ensures Open() && (ok ==> Stored(log) == [FromUser(user)])
    {
      hide AllBacked, WriteAhead;
      var entries := [OperationStartedEntry(operation), TurnStartedEntry(turn), UserEntry(user)];
      BackedGrows(published, log, entries);
      StoredStart(entries[0], entries[1], user);
      ok := Commit(entries);
      assert [] + entries == entries;
    }

    /** What the coordinator asks of a driver: one settlement at most, of its own operation, and
        nothing after it. */
    lemma SettlesLast(i: nat)
      requires Final() && i < |published|
      ensures published[i].AgentSettled? ==> i == |published| - 1 && published[i].operationId == operation
      ensures published[|published| - 1].AgentSettled?
      ensures Steps.AtMostOneSettlement(published)
    {
      forall j | 0 <= j < |published| - 1 ensures !published[j].AgentSettled? {
        assert published[..|published| - 1][j] == published[j];
      }
    }

    lemma SettledWithoutPanic()
      requires Final()
      ensures !exit.value.Panicked?
    {
    }

    method Loop(first: Effect) returns (result: Exit)
      requires Driving() && state.ExpectingModel? && state.usedRounds == 0 && first.RequestModel? && first.id == state.effect
      requires first.messages == Stored(log) && runs == 0
      modifies this
      ensures result.Panicked? ==> maxRounds > Kernel.LARGEST_SAFE
      ensures !result.Panicked? ==> Final() && exit == Some(result)
      ensures runs <= (maxRounds + 1) * (maxRetries + 1)
    {
      hide Follows, Honest, WriteAhead, AllBacked, Unsettled;
      var effect := first;
      while true
        invariant Driving() && state.ExpectingModel? && effect.RequestModel? && effect.id == state.effect && effect.messages == Stored(log)
        invariant state.usedRounds <= maxRounds && runs <= state.usedRounds * (maxRetries + 1)
        decreases maxRounds - state.usedRounds
      {
        ghost var used, before := state.usedRounds, runs;
        var next, panicked := Round(effect);
        MoreRuns(used, before, runs, maxRounds, maxRetries);
        if panicked {
          return CoordinatorState.Panicked;
        }
        if next.None? {
          SettledWithoutPanic();
          return exit.value;
        }
        effect := next.value;
      }
    }
  }

  lemma MoreRuns(used: nat, before: nat, after: nat, max: nat, retries: nat)
    requires used <= max && before <= used * (retries + 1) && after <= before + 1 + retries
    ensures after <= (used + 1) * (retries + 1) <= (max + 1) * (retries + 1)
  {
    assert (used + 1) * (retries + 1) == used * (retries + 1) + (retries + 1);
    assert (max + 1) * (retries + 1) == (used + 1) * (retries + 1) + (max - used) * (retries + 1);
  }
}
