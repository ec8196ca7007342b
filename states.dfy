/** The graph's shared state (backend/llm/states.py) and the values that flow through it. */
module States {

  datatype Option<T> = None | Some(value: T) {
    function GetOr(default: T): T {
      match this
      case Some(v) => v
      case None => default
    }
  }

  /** An element of the state's `messages` list: a chat-library message object, which has a
      `type` ("ai", "human", ...) and a `content`, or any other value, known here only by
      its `str()` rendering. */
  datatype Item = Message(kind: string, content: string) | Other(repr: string)

  function AiMessage(content: string): Item {
    Message("ai", content)
  }

  /** `SharedState`: every key is optional (`total=False`). An absent key and a key bound to
      `None` are both `None` here; the merge rule below treats them alike. The `short_message`
      channel is declared as a list of strings, but the only node that writes it writes a
      single string, which is what is kept here. */
  datatype SharedState = SharedState(
    inputMessage: Option<string>,
    intent: Option<seq<string>>,
    shortMessage: Option<string>,
    messages: Option<seq<Item>>)

  const EmptyState := SharedState(None, None, None, None)

  /** The result of a call into a language model or an agent: its output, or the exception it
      raised. */
  datatype Run = Output(text: string) | Raised(error: string)

  /** The reducer `lambda prev, new: new if new is not None else prev`. */
  function Merge<T>(prev: Option<T>, update: Option<T>): (r: Option<T>)
    ensures update.Some? ==> r == update
    ensures update.None? ==> r == prev
  {
    if update.Some? then update else prev
  }

  /** A node's update applied to the state: the three annotated channels share the one merge
      rule. The `messages` channel uses the chat library's own reducer and is not part of
      this model, so it is left as it was. */
  function ApplyUpdate(prev: SharedState, update: SharedState): (r: SharedState)
    ensures r.inputMessage == Merge(prev.inputMessage, update.inputMessage)
    ensures r.intent == Merge(prev.intent, update.intent)
    ensures r.shortMessage == Merge(prev.shortMessage, update.shortMessage)
    ensures r.messages == prev.messages
  {
    prev.(inputMessage := Merge(prev.inputMessage, update.inputMessage),
          intent := Merge(prev.intent, update.intent),
          shortMessage := Merge(prev.shortMessage, update.shortMessage))
  }

  /** Merging the same update twice is merging it once. */
  lemma MergeIdempotent<T>(prev: Option<T>, update: Option<T>)
    ensures Merge(Merge(prev, update), update) == Merge(prev, update)
  {
  }

  /** Last write wins: of two successive updates, the later one decides unless it is `None`. */
  lemma MergeLastWriteWins<T>(prev: Option<T>, a: Option<T>, b: Option<T>)
    ensures Merge(Merge(prev, a), b) == if b.Some? then b else Merge(prev, a)
  {
  }

  /** The same laws lifted to whole states: an empty update changes nothing, an update applied
      twice has the effect of applying it once, and two successive updates compose into one. */
  lemma ApplyUpdateLaws(prev: SharedState, a: SharedState, b: SharedState)
    ensures ApplyUpdate(prev, EmptyState) == prev
    ensures ApplyUpdate(ApplyUpdate(prev, a), a) == ApplyUpdate(prev, a)
    ensures ApplyUpdate(ApplyUpdate(prev, a), b) == ApplyUpdate(prev, ApplyUpdate(a, b))
  {
  }
}
