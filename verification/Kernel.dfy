/** The turn kernel: a pure state machine over one turn. */
module Kernel {
  import opened Wrappers
  import opened Identifiers
  import opened KernelProtocol

  function EffectOf(turn: TurnId, n: nat): EffectId { EffectId(Scoped(turn, "effect", n)) }
  function ModelCallOf(turn: TurnId, n: nat): ModelCallId { ModelCallId(Scoped(turn, "model-call", n)) }
  function BatchOf(turn: TurnId, n: nat): ToolBatchId { ToolBatchId(Scoped(turn, "tool-batch", n)) }

  /** The n-th model call of a turn has effect number `2n - 1`, computed in 32 bits. */
  function ModelCallIds(turn: TurnId, n: U32): Option<(ModelCallId, EffectId)> {
    if 2 * n >= U32_LIMIT || n == 0 then None else Some((ModelCallOf(turn, n), EffectOf(turn, 2 * n - 1)))
  }

  /** The n-th tool batch of a turn has effect number `2n`, computed in 32 bits. */
  function ToolBatchIds(turn: TurnId, n: U32): Option<(ToolBatchId, EffectId)> {
    if 2 * n >= U32_LIMIT then None else Some((BatchOf(turn, n), EffectOf(turn, 2 * n)))
  }

  function Step(state: State, input: Input): Answer {
    match (state, input)
    case (ExpectingTurnStart, BeginTurn(turn, user, max)) => Begin(turn, user, max)
    case (ExpectingModel(_, _, _, _, _, _), ModelCallCompleted(received, output)) => CompleteModel(state, received, output)
    case (ExpectingTools(_, _, _, _, _, _, _), ToolBatchCompleted(received, results)) => CompleteTools(state, received, results)
    case (ExpectingModel(effect, _, _, _, _, _), TerminationRequested(received, failure)) => Terminate(effect, received, failure)
    case (ExpectingTools(effect, _, _, _, _, _, _), TerminationRequested(received, failure)) => Terminate(effect, received, failure)
    case (ExpectingModel(effect, _, _, _, _, _), CancelRequested(received)) => Cancel(effect, received)
    case (ExpectingTools(effect, _, _, _, _, _, _), CancelRequested(received)) => Cancel(effect, received)
    case (Terminated(_, completed), ModelCallCompleted(received, _)) =>
      Rejected(if received == completed then EffectAlreadyCompleted(received) else KernelTerminated)
    case (Terminated(_, completed), ToolBatchCompleted(received, _)) =>
      Rejected(if received == completed then EffectAlreadyCompleted(received) else KernelTerminated)
    case (Terminated(_, _), _) => Rejected(KernelTerminated)
    case _ => Rejected(InputNotAccepted)
  }

  function Begin(turn: TurnId, user: UserMessage, max: U32): Answer {
    var ids := ModelCallIds(turn, 1).value;
    var transcript := [FromUser(user)];
    Accepted(Transition(
      ExpectingModel(ids.1, ids.0, 0, max, turn, transcript),
      [TurnBegan(turn, user), ModelCallRequested(ids.0, ids.1)],
      BeforeNextEffect,
      Some(RequestModel(ids.1, ids.0, transcript, 0 < max))))
  }

  function CompleteModel(state: State, received: EffectId, output: AssistantOutput): Answer
    requires state.ExpectingModel?
  {
    if received != state.effect then Rejected(EffectIdMismatch(state.effect, received))
    else if output.unsupported then Rejected(UnsupportedAssistantOutput)
    else if ContainsToolCall(output.blocks) then
      if state.usedRounds >= state.maxRounds then Rejected(UnsupportedAssistantOutput)
      else
        var calls := Calls(output.blocks);
        if !ValidCalls(calls) then Rejected(InvalidToolCalls)
        else
          var round := state.usedRounds + 1;
          var ids := ToolBatchIds(state.turn, round);
          if ids.None? then Overflow
          else
            var (batch, effect) := ids.value;
            Accepted(Transition(
              ExpectingTools(effect, batch, round, state.maxRounds, state.turn,
                             state.transcript + [AssistantToolCalls(batch, output.blocks)], calls),
              [ToolCallsAccepted(state.call, batch, output.blocks, calls), ToolBatchRequested(batch, effect)],
              BeforeNextEffect,
              Some(ExecuteToolBatch(effect, batch, calls))))
    else Accepted(Transition(
      Terminated(Succeeded, state.effect),
      [OutputAccepted(state.call, output), TurnTerminated(Succeeded)],
      BeforeSettlement,
      None))
  }

  function ResultMessages(results: seq<ToolResult>): seq<TurnMessage> {
    seq(|results|, i requires 0 <= i < |results| => FromTool(results[i]))
  }

  function CompleteTools(state: State, received: EffectId, results: seq<ToolResult>): Answer
    requires state.ExpectingTools?
  {
    if received != state.effect then Rejected(EffectIdMismatch(state.effect, received))
    else if !MatchingResults(state.calls, results) then Rejected(ToolResultsMismatch)
    else
      var transcript := state.transcript + ResultMessages(results);
      if state.round + 1 >= U32_LIMIT then Overflow
      else
        var ids := ModelCallIds(state.turn, state.round + 1);
        if ids.None? then Overflow
        else
          var (call, effect) := ids.value;
          Accepted(Transition(
            ExpectingModel(effect, call, state.round, state.maxRounds, state.turn, transcript),
            [ToolResultsAccepted(state.batch, results), ModelCallRequested(call, effect)],
            BeforeNextEffect,
            Some(RequestModel(effect, call, transcript, state.round < state.maxRounds))))
  }

  function Terminate(expected: EffectId, received: EffectId, failure: TurnFailure): Answer {
    if received != expected then Rejected(EffectIdMismatch(expected, received))
    else Accepted(Transition(Terminated(Failed, expected),
                             [FailureAccepted(expected, failure), TurnTerminated(Failed)], BeforeSettlement, None))
  }

  function Cancel(expected: EffectId, received: EffectId): Answer {
    if received != expected then Rejected(EffectIdMismatch(expected, received))
    else Accepted(Transition(Terminated(Cancelled, expected), [TurnTerminated(Cancelled)], BeforeSettlement, None))
  }

  // ---- runs ----

  /** A turn so far: the state and everything the kernel gave out, oldest first. */
  datatype Trace = Trace(state: State, max: nat, turn: TurnId, accepted: nat, effects: seq<Effect>,
                         observations: seq<Observation>, overflowed: bool)

  const START := Trace(ExpectingTurnStart, 0, TurnId(""), 0, [], [], false)

  /** The caller feeds one input and keeps its state when it is rejected. */
  function Feed(t: Trace, input: Input): Trace {
    if t.overflowed then t
    else match Step(t.state, input)
      case Rejected(_) => t
      case Overflow => t.(overflowed := true)
      case Accepted(x) =>
        Trace(x.state, if input.BeginTurn? then input.maxRounds else t.max, if input.BeginTurn? then input.turn else t.turn,
              t.accepted + 1, t.effects + (if x.effect.Some? then [x.effect.value] else []),
              t.observations + x.observations, false)
  }

  function Run(inputs: seq<Input>): Trace {
    if inputs == [] then START else Feed(Run(inputs[..|inputs| - 1]), inputs[|inputs| - 1])
  }

  /** The messages the observations tell of. */
  function Told(observations: seq<Observation>): seq<TurnMessage> {
    if observations == [] then []
    else Told(observations[..|observations| - 1]) + Says(observations[|observations| - 1])
  }

  function Says(observation: Observation): seq<TurnMessage> {
    match observation
    case TurnBegan(_, user) => [FromUser(user)]
    case OutputAccepted(_, output) => [FromAssistant(output)]
    case ToolCallsAccepted(_, batch, blocks, _) => [AssistantToolCalls(batch, blocks)]
    case ToolResultsAccepted(_, results) => ResultMessages(results)
    case _ => []
  }

  lemma ToldTwo(a: seq<Observation>, x: Observation, y: Observation)
    ensures Told(a + [x, y]) == Told(a) + Says(x) + Says(y)
  {
    hide Says;
    assert (a + [x, y])[..|a| + 1] == a + [x];
    assert (a + [x])[..|a|] == a;
  }

  // ---- the transcript grammar ----

  /** A request for tools that names each call once. */
  predicate IsRequest(m: TurnMessage, batch: ToolBatchId) {
    && m.AssistantToolCalls? && m.batch == batch && Calls(m.blocks) != []
    && (forall i, j :: 0 <= i < j < |Calls(m.blocks)| ==> Calls(m.blocks)[i].id != Calls(m.blocks)[j].id)
  }

  /** A complete round: the request, then exactly one result per call, in call order. */
  predicate IsRound(ms: seq<TurnMessage>, batch: ToolBatchId) {
    && ms != [] && IsRequest(ms[0], batch) && |ms| == 1 + |Calls(ms[0].blocks)|
    && forall i :: 0 <= i < |Calls(ms[0].blocks)| ==>
         ms[i + 1].FromTool? && ms[i + 1].result.callId == Calls(ms[0].blocks)[i].id
  }

  /** The user's message followed by `n` complete rounds, numbered from one. */
  ghost predicate Rounds(ms: seq<TurnMessage>, turn: TurnId, n: nat) {
    if n == 0 then |ms| == 1 && ms[0].FromUser?
    else exists k :: 0 < k < |ms| && Rounds(ms[..k], turn, n - 1) && IsRound(ms[k..], BatchOf(turn, n))
  }

  // ---- the invariant ----

  ghost predicate Numbered(t: Trace) {
    forall k :: 0 <= k < |t.effects| ==>
      t.effects[k].id == EffectOf(t.turn, k + 1) && (t.effects[k].RequestModel? <==> k % 2 == 0)
  }

  ghost predicate Inv(t: Trace) {
    && Numbered(t) && t.max < U32_LIMIT
    && match t.state
       case ExpectingTurnStart => t.effects == [] && t.accepted == 0 && t.observations == [] && t.max == 0
       case ExpectingModel(effect, call, used, max, turn, transcript) =>
         && max == t.max && turn == t.turn && used <= max
         && |t.effects| == t.accepted == 2 * used + 1
         && t.effects[2 * used] == RequestModel(effect, call, transcript, used < max)
         && call == ModelCallOf(turn, used + 1)
         && transcript == Told(t.observations) && Rounds(transcript, turn, used)
       case ExpectingTools(effect, batch, round, max, turn, transcript, calls) =>
         && max == t.max && turn == t.turn && 1 <= round <= max
         && |t.effects| == t.accepted == 2 * round
         && t.effects[2 * round - 1] == ExecuteToolBatch(effect, batch, calls)
         && transcript == Told(t.observations) && transcript != []
         && Rounds(transcript[..|transcript| - 1], turn, round - 1)
         && batch == BatchOf(turn, round)
         && IsRequest(transcript[|transcript| - 1], batch)
         && calls == Calls(transcript[|transcript| - 1].blocks)
       case Terminated(outcome, completed) =>
         && t.observations != [] && t.observations[|t.observations| - 1] == TurnTerminated(outcome)
         && t.effects != [] && completed == t.effects[|t.effects| - 1].id
         && t.accepted == |t.effects| + 1 && |t.effects| <= 2 * t.max + 1
  }

  lemma NextInv(t: Trace, input: Input)
    requires Inv(t)
    ensures Inv(Feed(t, input))
  {
    hide EffectOf, ModelCallOf, BatchOf, Rounds, IsRequest, Told, CompleteModel, CompleteTools;
    var u := Feed(t, input);
    if u != t && !u.overflowed {
      match t.state
      case ExpectingTurnStart => BeginInv(t, input);
      case ExpectingModel(_, _, _, _, _, _) => if input.ModelCallCompleted? { ModelInv(t, input); }
      case ExpectingTools(_, _, _, _, _, _, _) => if input.ToolBatchCompleted? { ToolsInv(t, input); }
    }
  }

  lemma BeginInv(t: Trace, input: Input)
    requires Inv(t) && t.state.ExpectingTurnStart? && input.BeginTurn? && !t.overflowed
    ensures Inv(Feed(t, input))
  {
    hide EffectOf, ModelCallOf, BatchOf;
    var u := Feed(t, input);
    ToldTwo([], u.observations[0], u.observations[1]);
    assert u.observations == [] + [u.observations[0], u.observations[1]];
  }

  lemma ModelInv(t: Trace, input: Input)
    requires Inv(t) && t.state.ExpectingModel? && input.ModelCallCompleted? && !t.overflowed
    requires Step(t.state, input).Accepted?
    ensures Inv(Feed(t, input))
  {
    hide Inv, Step;
    if Feed(t, input).state.ExpectingTools? {
      ModelToTools(t, input);
    } else {
      ModelToEnd(t, input);
    }
  }

  lemma ModelToTools(t: Trace, input: Input)
    requires Inv(t) && t.state.ExpectingModel? && input.ModelCallCompleted? && !t.overflowed
    requires Step(t.state, input).Accepted? && Feed(t, input).state.ExpectingTools?
    ensures Inv(Feed(t, input))
  {
    hide EffectOf, ModelCallOf, BatchOf, Told, Calls, ContainsToolCall, Rounds;
    var u, x := Feed(t, input), Step(t.state, input).transition;
    ToldTwo(t.observations, x.observations[0], x.observations[1]);
    ValidCallsUnique(u.state.calls);
    assert u.state.transcript[..|u.state.transcript| - 1] == t.state.transcript;
    assert u.state.transcript[|u.state.transcript| - 1] == AssistantToolCalls(u.state.batch, input.output.blocks);
  }

  lemma ModelToEnd(t: Trace, input: Input)
    requires Inv(t) && t.state.ExpectingModel? && input.ModelCallCompleted? && !t.overflowed
    requires Step(t.state, input).Accepted? && !Feed(t, input).state.ExpectingTools?
    ensures Inv(Feed(t, input))
  {
    hide EffectOf, ModelCallOf, BatchOf, Told, Calls, ContainsToolCall, Rounds;
  }

  lemma ToolsInv(t: Trace, input: Input)
    requires Inv(t) && t.state.ExpectingTools? && input.ToolBatchCompleted? && !t.overflowed
    requires Step(t.state, input).Accepted?
    ensures Inv(Feed(t, input))
  {
    hide EffectOf, ModelCallOf, BatchOf, Told, Rounds, IsRequest;
    var u, x := Feed(t, input), Step(t.state, input).transition;
    ToldTwo(t.observations, x.observations[0], x.observations[1]);
    assert u.state.transcript == t.state.transcript + ResultMessages(input.results);
    RoundCompleted(t.state.transcript, input.results, t.turn, t.state.round);
  }

  /** The results of the open request complete its round. */
  lemma RoundCompleted(transcript: seq<TurnMessage>, results: seq<ToolResult>, turn: TurnId, round: nat)
    requires transcript != [] && round > 0 && Rounds(transcript[..|transcript| - 1], turn, round - 1)
    requires IsRequest(transcript[|transcript| - 1], BatchOf(turn, round))
    requires |results| == |Calls(transcript[|transcript| - 1].blocks)|
    requires forall i :: 0 <= i < |results| ==> results[i].callId == Calls(transcript[|transcript| - 1].blocks)[i].id
    ensures Rounds(transcript + ResultMessages(results), turn, round)
  {
    hide BatchOf, Calls;
    var ms, k := transcript + ResultMessages(results), |transcript| - 1;
    assert ms[..k] == transcript[..k];
    assert ms[k..] == [transcript[k]] + ResultMessages(results);
    RoundIsPositive(transcript[..k], turn, round - 1);
    assert IsRound(ms[k..], BatchOf(turn, round));
  }

  lemma RoundIsPositive(ms: seq<TurnMessage>, turn: TurnId, n: nat)
    requires Rounds(ms, turn, n)
    ensures |ms| > 0
  {
  }

  lemma {:induction false} RunInv(inputs: seq<Input>)
    ensures Inv(Run(inputs))
  {
    if inputs != [] {
      RunInv(inputs[..|inputs| - 1]);
      NextInv(Run(inputs[..|inputs| - 1]), inputs[|inputs| - 1]);
    } else {
      assert Inv(START);
    }
  }

  // ---- what holds of every turn ----

  lemma RunSnoc(inputs: seq<Input>, input: Input)
    ensures Run(inputs + [input]) == Feed(Run(inputs), input)
  {
    assert (inputs + [input])[..|inputs|] == inputs;
  }

  /** Every model request carries exactly what the observations so far tell, and that is the
      user's message followed by complete rounds; tools are on offer while rounds are left. */
  lemma RequestCarriesTranscript(inputs: seq<Input>, input: Input)
    requires !Run(inputs).overflowed && Step(Run(inputs).state, input).Accepted?
    requires var x := Step(Run(inputs).state, input).transition;
             x.effect.Some? && x.effect.value.RequestModel?
    ensures var messages := Step(Run(inputs).state, input).transition.effect.value.messages;
            && messages == Told(Run(inputs + [input]).observations)
            && exists n: nat :: Rounds(messages, Run(inputs + [input]).turn, n)
                           && (Step(Run(inputs).state, input).transition.effect.value.toolsAllowed <==> n < Run(inputs + [input]).max)
  {
    hide EffectOf, ModelCallOf, BatchOf, Told, Rounds, IsRequest;
    RunInv(inputs + [input]);
    RunSnoc(inputs, input);
    var t := Run(inputs + [input]);
    assert t.state.ExpectingModel? && Rounds(t.state.transcript, t.turn, t.state.usedRounds);
  }

  /** While tools run the transcript ends in one open round, and its request is what runs. */
  lemma BatchCarriesLastRequest(inputs: seq<Input>)
    requires Run(inputs).state.ExpectingTools?
    ensures var s := Run(inputs).state;
            && s.round >= 1
            && s.transcript == Told(Run(inputs).observations) && s.transcript != []
            && Rounds(s.transcript[..|s.transcript| - 1], s.turn, s.round - 1)
            && IsRequest(s.transcript[|s.transcript| - 1], s.batch)
            && s.calls == Calls(s.transcript[|s.transcript| - 1].blocks)
  {
    hide EffectOf, ModelCallOf, BatchOf, Told, Rounds, IsRequest;
    RunInv(inputs);
  }

  /** The k-th effect of a turn has number k, so no two effects of a turn share an id. */
  lemma EffectsNumbered(inputs: seq<Input>, j: nat, k: nat)
    requires j < k < |Run(inputs).effects|
    ensures Run(inputs).effects[j].id == EffectOf(Run(inputs).turn, j + 1)
    ensures Run(inputs).effects[j].id != Run(inputs).effects[k].id
  {
    RunInv(inputs);
    var t := Run(inputs);
    if t.effects[j].id == t.effects[k].id {
      ScopedInjective(t.turn, j + 1, t.turn, k + 1, "effect");
    }
  }

  predicate Outstanding(state: State, effect: EffectId) {
    || (state.ExpectingModel? && state.effect == effect)
    || (state.ExpectingTools? && state.effect == effect)
  }

  lemma OnlyOutstandingAccepted(state: State, input: Input)
    requires !input.BeginTurn? && !Outstanding(state, input.effect)
    ensures Step(state, input).Rejected?
  {
  }

  lemma OutstandingIsLast(inputs: seq<Input>, effect: EffectId)
    requires Outstanding(Run(inputs).state, effect)
    ensures Run(inputs).effects != [] && effect == Run(inputs).effects[|Run(inputs).effects| - 1].id
  {
    hide EffectOf, ModelCallOf, BatchOf, Told, Rounds, IsRequest;
    RunInv(inputs);
  }

  /** An answer to any effect but the outstanding one is rejected and changes nothing. */
  lemma StaleRejected(inputs: seq<Input>, k: nat, input: Input)
    requires k + 1 < |Run(inputs).effects| && !Run(inputs).overflowed
    requires !input.BeginTurn? && input.effect == Run(inputs).effects[k].id
    ensures Step(Run(inputs).state, input).Rejected? && Run(inputs + [input]) == Run(inputs)
  {
    hide EffectOf, Run, Step, Outstanding;
    RunSnoc(inputs, input);
    EffectsNumbered(inputs, k, |Run(inputs).effects| - 1);
    if Outstanding(Run(inputs).state, input.effect) {
      OutstandingIsLast(inputs, input.effect);
    }
    OnlyOutstandingAccepted(Run(inputs).state, input);
  }

  /** The last thing a terminated turn observes is its outcome. */
  lemma OutcomeIsObserved(inputs: seq<Input>)
    requires Run(inputs).state.Terminated?
    ensures var t := Run(inputs);
            t.observations != [] && t.observations[|t.observations| - 1] == TurnTerminated(t.state.outcome)
  {
    hide EffectOf, ModelCallOf, BatchOf, Told, Rounds, IsRequest;
    RunInv(inputs);
  }

  /** Once terminated nothing is accepted; only an answer to the effect that ended the turn is
      told apart from any other. */
  lemma TerminatedIsFinal(inputs: seq<Input>, input: Input)
    requires Run(inputs).state.Terminated? && !Run(inputs).overflowed
    ensures Run(inputs + [input]) == Run(inputs) && Run(inputs).effects != []
    ensures Step(Run(inputs).state, input) == Rejected(
              if (input.ModelCallCompleted? || input.ToolBatchCompleted?) && input.effect == Run(inputs).effects[|Run(inputs).effects| - 1].id
              then EffectAlreadyCompleted(input.effect) else KernelTerminated)
  {
    hide EffectOf, ModelCallOf, BatchOf, Told, Rounds, IsRequest;
    RunInv(inputs);
    RunSnoc(inputs, input);
  }

  function Requests(effects: seq<Effect>): nat {
    if effects == [] then 0
    else Requests(effects[..|effects| - 1]) + if effects[|effects| - 1].RequestModel? then 1 else 0
  }

  lemma {:induction false} RequestsAlternate(t: Trace, n: nat)
    requires Numbered(t) && n <= |t.effects|
    ensures Requests(t.effects[..n]) == (n + 1) / 2
  {
    hide EffectOf;
    if n > 0 {
      var es := t.effects[..n];
      RequestsAlternate(t, n - 1);
      assert es[..n - 1] == t.effects[..n - 1];
      assert Requests(es) == Requests(es[..n - 1]) + if t.effects[n - 1].RequestModel? then 1 else 0;
    }
  }

  /** Whatever is fed in, a turn accepts at most `2 max + 2` inputs, makes at most `max + 1`
      model requests and runs at most `max` batches. */
  lemma BoundedWork(inputs: seq<Input>)
    ensures Run(inputs).accepted <= 2 * Run(inputs).max + 2
    ensures Requests(Run(inputs).effects) <= Run(inputs).max + 1
    ensures |Run(inputs).effects| - Requests(Run(inputs).effects) <= Run(inputs).max
  {
    hide EffectOf, ModelCallOf, BatchOf, Told, Rounds, IsRequest;
    RunInv(inputs);
    var t := Run(inputs);
    RequestsAlternate(t, |t.effects|);
    assert t.effects[..|t.effects|] == t.effects;
  }

  // ---- 32-bit arithmetic ----

  const LARGEST_SAFE: nat := 0x7FFF_FFFE

  /** No number overflows 32 bits as long as the turn was begun with a small enough limit. */
  lemma {:induction false} NoOverflow(inputs: seq<Input>)
    requires Run(inputs).max <= LARGEST_SAFE
    ensures !Run(inputs).overflowed
  {
    hide EffectOf, ModelCallOf, BatchOf, Told, Rounds, IsRequest;
    if inputs != [] {
      var init := inputs[..|inputs| - 1];
      RunInv(init);
      RunSnoc(init, inputs[|inputs| - 1]);
      assert inputs == init + [inputs[|inputs| - 1]];
      NoOverflow(init);
    }
  }

  const ONE_CALL := ToolCall(ToolCallId("call"), "tool", "{}")

  /** A turn of `n` rounds of one call each. */
  function LongTurn(turn: TurnId, user: UserMessage, max: U32, n: nat): seq<Input> {
    if n == 0 then [BeginTurn(turn, user, max)]
    else
      var asked := ModelCallCompleted(EffectOf(turn, 2 * n - 1), AssistantOutput([Call(ONE_CALL)], false));
      var answered := ToolBatchCompleted(EffectOf(turn, 2 * n), [ToolResult(ONE_CALL.id, ToolSuccess(""))]);
      LongTurn(turn, user, max, n - 1) + [asked] + [answered]
  }

  lemma OneCallIsValid()
    ensures ContainsToolCall([Call(ONE_CALL)]) && Calls([Call(ONE_CALL)]) == [ONE_CALL] && ValidCalls([ONE_CALL])
  {
    assert [Call(ONE_CALL)][0].Call?;
    assert [Call(ONE_CALL)][1..] == [];
    assert Calls([]) == [];
    assert ONE_CALL.name[0] == 't' && 't' in ONE_CALL.name;
    assert !IsBlank(ONE_CALL.name);
    ValidCallsUnique([ONE_CALL]);
  }

  lemma {:induction false} LongTurnRuns(turn: TurnId, user: UserMessage, max: U32, n: nat)
    requires n <= max && n <= LARGEST_SAFE
    ensures var t := Run(LongTurn(turn, user, max, n));
            !t.overflowed && t.state.ExpectingModel? && t.state.usedRounds == n && t.state.maxRounds == max
            && t.state.turn == turn && t.state.effect == EffectOf(turn, 2 * n + 1)
  {
    hide EffectOf, ModelCallOf, BatchOf, ValidCalls, Calls, ContainsToolCall;
    if n == 0 {
      RunSnoc([], BeginTurn(turn, user, max));
      assert [] + [BeginTurn(turn, user, max)] == [BeginTurn(turn, user, max)];
    } else {
      LongTurnRuns(turn, user, max, n - 1);
      OneMoreRound(turn, user, max, n);
    }
  }

  lemma OneMoreRound(turn: TurnId, user: UserMessage, max: U32, n: nat)
    requires 1 <= n <= max && n <= LARGEST_SAFE + 1
    requires var t := Run(LongTurn(turn, user, max, n - 1));
             !t.overflowed && t.state.ExpectingModel? && t.state.usedRounds == n - 1 && t.state.maxRounds == max
             && t.state.turn == turn && t.state.effect == EffectOf(turn, 2 * n - 1)
    ensures var t := Run(LongTurn(turn, user, max, n));
            if n <= LARGEST_SAFE
            then !t.overflowed && t.state.ExpectingModel? && t.state.usedRounds == n && t.state.maxRounds == max
                 && t.state.turn == turn && t.state.effect == EffectOf(turn, 2 * n + 1)
            else t.overflowed
  {
    hide EffectOf, ModelCallOf, BatchOf, ValidCalls, Calls, ContainsToolCall, Run;
    OneCallIsValid();
    var before := LongTurn(turn, user, max, n - 1);
    var asked := ModelCallCompleted(EffectOf(turn, 2 * n - 1), AssistantOutput([Call(ONE_CALL)], false));
    RunSnoc(before, asked);
    RunSnoc(before + [asked], ToolBatchCompleted(EffectOf(turn, 2 * n), [ToolResult(ONE_CALL.id, ToolSuccess(""))]));
  }

  /** The limit is exact: with any larger one some turn overflows. */
  lemma OverflowBeyond(turn: TurnId, user: UserMessage, max: U32)
    requires max > LARGEST_SAFE
    ensures Run(LongTurn(turn, user, max, LARGEST_SAFE + 1)).overflowed
  {
    LongTurnRuns(turn, user, max, LARGEST_SAFE);
    OneMoreRound(turn, user, max, LARGEST_SAFE + 1);
  }
}
