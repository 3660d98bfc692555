/**
 * The transcript both chat pages keep: the turns shown on screen and the
 * turns sent back to the service as history.
 */
module ChatTranscript {
  import opened JsText

  datatype Role = User | Assistant

  datatype Message = Message(role: Role, content: string)

  /** What a call to the service gives back: its text, or the message of the error it threw. */
  datatype Reply = Content(text: string) | Failed(message: string)

  /** Every message the player sent is trimmed and not empty. */
  predicate UserTurnsTrimmed(history: seq<Message>)
  {
    forall k :: 0 <= k < |history| && history[k].role == User ==>
      history[k].content != [] && IsTrimmed(history[k].content)
  }

  lemma UserTurnsAppend(history: seq<Message>, m: Message)
    requires UserTurnsTrimmed(history)
    requires m.role == User ==> m.content != [] && IsTrimmed(m.content)
    ensures UserTurnsTrimmed(history + [m])
  {
  }

  /** The number of turns the service has written. */
  function AssistantTurns(history: seq<Message>): nat
  {
    if history == [] then 0
    else AssistantTurns(history[..|history| - 1]) + (if history[|history| - 1].role == Assistant then 1 else 0)
  }

  /** A turn added at the end counts exactly when it is the service's. */
  lemma AssistantTurnsAppend(history: seq<Message>, m: Message)
    ensures AssistantTurns(history + [m]) == AssistantTurns(history) + (if m.role == Assistant then 1 else 0)
  {
    assert (history + [m])[..|history + [m]| - 1] == history;
  }

  /** The count never exceeds the length of the transcript. */
  lemma {:induction false} AssistantTurnsBounded(history: seq<Message>)
    ensures AssistantTurns(history) <= |history|
  {
    if history != [] {
      AssistantTurnsBounded(history[..|history| - 1]);
    }
  }
}
