/** The values the turn kernel takes and gives. */
module KernelProtocol {
  import opened Wrappers
  import opened Identifiers

  datatype UserPart = TextPart(text: string) | Image(mediaType: string, bytes: seq<bv8>)
  datatype UserMessage = UserMessage(parts: seq<UserPart>)
  datatype ToolCall = ToolCall(id: ToolCallId, name: string, arguments: string)
  datatype ToolOutcome = ToolSuccess(content: string) | ToolError(code: string, message: string)
  datatype ToolResult = ToolResult(callId: ToolCallId, outcome: ToolOutcome)
  datatype AssistantBlock = Text(text: string) | Call(call: ToolCall)
  datatype AssistantOutput = AssistantOutput(blocks: seq<AssistantBlock>, unsupported: bool)

  datatype TurnMessage =
    | FromUser(user: UserMessage)
    | FromAssistant(output: AssistantOutput)
    | AssistantToolCalls(batch: ToolBatchId, blocks: seq<AssistantBlock>)
    | FromTool(result: ToolResult)

  datatype TurnFailure =
    | ModelCallFailed(message: string)
    | InvalidModelOutput(message: string)
    | ToolExecutionFailed(message: string)
    | PersistenceFailed(message: string)
    | RuntimeDriverFailed(message: string)

  datatype TurnOutcome = Succeeded | Failed | Cancelled

  type U32 = n: nat | n < U32_LIMIT

  datatype Input =
    | BeginTurn(turn: TurnId, user: UserMessage, maxRounds: U32)
    | ModelCallCompleted(effect: EffectId, output: AssistantOutput)
    | ToolBatchCompleted(effect: EffectId, results: seq<ToolResult>)
    | TerminationRequested(effect: EffectId, failure: TurnFailure)
    | CancelRequested(effect: EffectId)

  datatype Effect =
    | RequestModel(id: EffectId, call: ModelCallId, messages: seq<TurnMessage>, toolsAllowed: bool)
    | ExecuteToolBatch(id: EffectId, batch: ToolBatchId, calls: seq<ToolCall>)

  datatype Observation =
    | TurnBegan(turn: TurnId, user: UserMessage)
    | ModelCallRequested(call: ModelCallId, effect: EffectId)
    | OutputAccepted(call: ModelCallId, output: AssistantOutput)
    | ToolCallsAccepted(call: ModelCallId, batch: ToolBatchId, blocks: seq<AssistantBlock>, calls: seq<ToolCall>)
    | ToolBatchRequested(batch: ToolBatchId, effect: EffectId)
    | ToolResultsAccepted(batch: ToolBatchId, results: seq<ToolResult>)
    | FailureAccepted(effect: EffectId, failure: TurnFailure)
    | TurnTerminated(outcome: TurnOutcome)

  datatype Durability = BeforeNextEffect | BeforeSettlement

  datatype Rejection =
    | InputNotAccepted
    | EffectIdMismatch(expected: EffectId, received: EffectId)
    | EffectAlreadyCompleted(effect: EffectId)
    | UnsupportedAssistantOutput
    | InvalidToolCalls
    | ToolResultsMismatch
    | KernelTerminated

  datatype State =
    | ExpectingTurnStart
    | ExpectingModel(effect: EffectId, call: ModelCallId, usedRounds: U32, maxRounds: U32,
                     turn: TurnId, transcript: seq<TurnMessage>)
    | ExpectingTools(effect: EffectId, batch: ToolBatchId, round: U32, maxRounds: U32,
                     turn: TurnId, transcript: seq<TurnMessage>, calls: seq<ToolCall>)
    | Terminated(outcome: TurnOutcome, completed: EffectId)

  datatype Transition = Transition(state: State, observations: seq<Observation>, durability: Durability,
                                   effect: Option<Effect>)

  /** What a transition comes to; `Overflow` is 32-bit arithmetic that does not fit. */
  datatype Answer = Accepted(transition: Transition) | Rejected(reason: Rejection) | Overflow

  /** The tool calls among `blocks`, in order. */
  function Calls(blocks: seq<AssistantBlock>): seq<ToolCall> {
    if blocks == [] then []
    else if blocks[0].Call? then [blocks[0].call] + Calls(blocks[1..])
    else Calls(blocks[1..])
  }

  predicate ContainsToolCall(blocks: seq<AssistantBlock>) {
    exists i :: 0 <= i < |blocks| && blocks[i].Call?
  }

  /** A block list holds a tool call exactly when the extracted batch is not empty. */
  lemma {:induction false} ContainedCallsExtracted(blocks: seq<AssistantBlock>)
    ensures ContainsToolCall(blocks) <==> Calls(blocks) != []
  {
    if blocks != [] {
      ContainedCallsExtracted(blocks[1..]);
      if ContainsToolCall(blocks[1..]) {
        var i :| 0 <= i < |blocks[1..]| && blocks[1..][i].Call?;
        assert blocks[i + 1].Call?;
      }
      if ContainsToolCall(blocks) && !blocks[0].Call? {
        var i :| 0 <= i < |blocks| && blocks[i].Call?;
        assert blocks[1..][i - 1].Call?;
      }
    }
  }

  /** Unicode white space, the characters trimming removes. */
  predicate IsWhitespace(c: char) {
    || '\U{9}' <= c <= '\U{D}' || c == ' ' || c == '\U{85}' || c == '\U{A0}' || c == '\U{1680}'
    || '\U{2000}' <= c <= '\U{200A}' || c == '\U{2028}' || c == '\U{2029}' || c == '\U{202F}'
    || c == '\U{205F}' || c == '\U{3000}'
  }

  predicate IsBlank(s: string) {
    forall c :: c in s ==> IsWhitespace(c)
  }

  function CallIds(calls: seq<ToolCall>): set<string> {
    set i | 0 <= i < |calls| :: calls[i].id.value
  }

  /** The batch test: not empty, every call named, and as many distinct ids as calls. */
  predicate ValidCalls(calls: seq<ToolCall>) {
    && calls != []
    && (forall i :: 0 <= i < |calls| ==> calls[i].id.value != "" && !IsBlank(calls[i].name))
    && |CallIds(calls)| == |calls|
  }

  predicate MatchingResults(calls: seq<ToolCall>, results: seq<ToolResult>) {
    && |calls| == |results|
    && forall i :: 0 <= i < |calls| ==> calls[i].id == results[i].callId
  }

  predicate DistinctCalls(calls: seq<ToolCall>) {
    forall i, j :: 0 <= i < j < |calls| ==> calls[i].id != calls[j].id
  }

  lemma CallIdsSnoc(init: seq<ToolCall>, last: ToolCall)
    ensures CallIds(init + [last]) == CallIds(init) + {last.id.value}
    ensures last.id.value in CallIds(init) <==> exists i :: 0 <= i < |init| && init[i].id == last.id
  {
    var calls := init + [last];
    forall v | v in CallIds(init) ensures v in CallIds(calls) {
      var i :| 0 <= i < |init| && init[i].id.value == v;
      assert calls[i].id.value == v;
    }
    assert calls[|init|].id == last.id;
    if i :| 0 <= i < |init| && init[i].id == last.id {
      assert init[i].id.value in CallIds(init);
    }
  }

  lemma DistinctSnoc(init: seq<ToolCall>, last: ToolCall)
    ensures DistinctCalls(init + [last]) <==> DistinctCalls(init) && !exists i :: 0 <= i < |init| && init[i].id == last.id
  {
    var calls := init + [last];
    assert forall i :: 0 <= i < |init| ==> calls[i] == init[i];
    assert calls[|init|] == last;
  }

  lemma {:induction false} CallIdsBounded(calls: seq<ToolCall>)
    ensures |CallIds(calls)| <= |calls|
    ensures |CallIds(calls)| == |calls| <==> DistinctCalls(calls)
  {
    if calls != [] {
      hide CallIds, DistinctCalls;
      var init, last := calls[..|calls| - 1], calls[|calls| - 1];
      assert calls == init + [last];
      CallIdsBounded(init);
      CallIdsSnoc(init, last);
      DistinctSnoc(init, last);
    }
  }

  /** Counting distinct ids is the same as comparing them pairwise. */
  lemma ValidCallsUnique(calls: seq<ToolCall>)
    ensures ValidCalls(calls) <==>
      && calls != []
      && (forall i :: 0 <= i < |calls| ==> calls[i].id.value != "" && !IsBlank(calls[i].name))
      && (forall i, j :: 0 <= i < j < |calls| ==> calls[i].id != calls[j].id)
  {
    CallIdsBounded(calls);
  }
}
