/** How one attempt reads a model stream: the reading rules as a function of the whole stream. */
module ModelStreamConsumer {
  import opened Wrappers
  import opened Identifiers
  import opened RuntimeEvents
  import Protocol = KernelProtocol

  datatype ModelEvent =
    | ResponseStarted
    | TextDelta(delta: Text)
    | ReasoningDelta(text: Text)
    | UsageUpdated(usage: nat)
    | ToolCallDelta(index: nat)
    | Completed(blocks: seq<Protocol.AssistantBlock>)

  /** One poll of the stream; the stream ends after the last. */
  datatype Poll = CancelObserved | Event(event: ModelEvent) | StreamError(recoverable: bool, message: string)

  datatype Attempt =
    | Assembled(blocks: seq<Protocol.AssistantBlock>)
    | AttemptFailed(recoverable: bool, failure: Protocol.TurnFailure)
    | AttemptCancelled

  function Violation(message: string): Attempt {
    AttemptFailed(false, Protocol.RuntimeDriverFailed(message))
  }

  /** Reads the rest of a stream, knowing whether the response has started and what completed it. */
  function Read(polls: seq<Poll>, started: bool, completed: Option<seq<Protocol.AssistantBlock>>): Attempt {
    if polls == [] then
      if completed.Some? then Assembled(completed.value) else Violation("model stream ended before Completed")
    else match polls[0]
      case CancelObserved => AttemptCancelled
      case StreamError(recoverable, message) => AttemptFailed(recoverable, Protocol.ModelCallFailed(message))
      case Event(event) =>
        if completed.Some? then
          if event.Completed? then Violation("model stream emitted Completed more than once")
          else Violation("model stream emitted output after Completed")
        else match event
          case Completed(blocks) => Read(polls[1..], started, Some(blocks))
          case ResponseStarted =>
            if started then Violation("model stream emitted ResponseStarted more than once")
            else Read(polls[1..], true, completed)
          case _ => Read(polls[1..], started, completed)
  }

  /** The events the reader passes on while it reads. */
  function Passed(call: ModelCallId, event: ModelEvent): seq<AgentEvent> {
    match event
    case ResponseStarted => [AgentEvent.ModelResponseStarted(call)]
    case TextDelta(delta) => [AgentEvent.TextDelta(delta)]
    case ReasoningDelta(text) => [AgentEvent.ReasoningDelta(call, text)]
    case UsageUpdated(usage) => [ModelUsageUpdated(call, usage)]
    case _ => []
  }

  /** Everything passed on until the reading stops. */
  function Heard(call: ModelCallId, polls: seq<Poll>, started: bool, completed: bool): seq<AgentEvent> {
    if polls == [] || !polls[0].Event? || completed || (polls[0].event.ResponseStarted? && started) then []
    else
      Passed(call, polls[0].event)
      + Heard(call, polls[1..], started || polls[0].event.ResponseStarted?, polls[0].event.Completed?)
  }

  /** A stream that keeps the port contract: events only, the response starting at most once,
      and one completion, which comes last. */
  predicate WellFormed(polls: seq<Poll>) {
    && (forall i :: 0 <= i < |polls| ==> polls[i].Event?)
    && (forall i, j :: 0 <= i < j < |polls| ==> !(polls[i].event.ResponseStarted? && polls[j].event.ResponseStarted?))
    && polls != [] && polls[|polls| - 1].event.Completed?
    && (forall i :: 0 <= i < |polls| - 1 ==> !polls[i].event.Completed?)
  }

  predicate Contract(polls: seq<Poll>, started: bool, completed: bool) {
    && (forall i :: 0 <= i < |polls| ==> polls[i].Event?)
    && (forall i, j :: 0 <= i < j < |polls| ==> !(polls[i].event.ResponseStarted? && polls[j].event.ResponseStarted?))
    && (started ==> forall i :: 0 <= i < |polls| ==> !polls[i].event.ResponseStarted?)
    && (if completed then polls == []
        else polls != [] && polls[|polls| - 1].event.Completed? && forall i :: 0 <= i < |polls| - 1 ==> !polls[i].event.Completed?)
  }

  lemma {:induction false} ReadKeepsContract(polls: seq<Poll>, started: bool, completed: Option<seq<Protocol.AssistantBlock>>)
    ensures Read(polls, started, completed).Assembled? <==> Contract(polls, started, completed.Some?)
    ensures Contract(polls, started, completed.Some?) && polls != [] ==>
              Read(polls, started, completed) == Assembled(polls[|polls| - 1].event.blocks)
  {
    if polls != [] && polls[0].Event? && completed.None? {
      var rest, event := polls[1..], polls[0].event;
      assert forall i :: 0 <= i < |rest| ==> rest[i] == polls[i + 1];
      assert polls == [polls[0]] + rest;
      ReadKeepsContract(rest, started || event.ResponseStarted?, if event.Completed? then Some(event.blocks) else None);
      if event.Completed? {
        assert rest == [] <==> |polls| == 1;
      } else if rest != [] {
        assert polls[|polls| - 1] == rest[|rest| - 1];
      }
      var started' := started || event.ResponseStarted?;
      if Contract(rest, started', event.Completed?) && !(started && event.ResponseStarted?) {
        forall i, j | 0 <= i < j < |polls| ensures !(polls[i].event.ResponseStarted? && polls[j].event.ResponseStarted?) {
          if i > 0 {
            assert !(rest[i - 1].event.ResponseStarted? && rest[j - 1].event.ResponseStarted?);
          } else {
            assert rest[j - 1] == polls[j];
          }
        }
        forall i | 0 <= i < |polls| - 1 ensures !polls[i].event.Completed? {
          if i > 0 { assert rest[i - 1] == polls[i]; }
        }
      }
    }
  }

  /** An attempt assembles an answer exactly from the streams that keep the contract, and the
      answer is what the completion carries. */
  lemma AssembledIffWellFormed(polls: seq<Poll>)
    ensures Read(polls, false, None).Assembled? <==> WellFormed(polls)
    ensures WellFormed(polls) ==> Read(polls, false, None) == Assembled(polls[|polls| - 1].event.blocks)
  {
    ReadKeepsContract(polls, false, None);
  }
}
