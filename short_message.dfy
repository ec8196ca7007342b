/** The short-term message window built by `save_short_message`
    (backend/llm/node_save_short_message.py). */
module ShortMessage {
  import opened States

  /** How many entries the window keeps (`STM_LIMIT`). */
  const StmLimit: nat := 5

  /** An entry of the window: a `{"role": ..., "content": ...}` dictionary built from a
      message object, or an element of `messages` that was not a message object, kept as it was. */
  datatype Entry = RoleContent(role: string, content: string) | Verbatim(item: Item)

  /** One element of `messages` as it enters the window. */
  function ToEntry(m: Item): (e: Entry)
    ensures m.Message? ==> e == RoleContent(if m.kind == "ai" then "assistant" else "user", m.content)
    ensures m.Other? ==> e == Verbatim(m)
  {
    match m
    case Message(kind, content) => RoleContent(if kind == "ai" then "assistant" else "user", content)
    case Other(_) => Verbatim(m)
  }

  /** The whole transcript before truncation: the user's input first, then every element of
      `messages` in order. */
  function Transcript(input: string, messages: seq<Item>): (t: seq<Entry>)
    ensures |t| == |messages| + 1
    ensures t[0] == RoleContent("user", input)
    ensures forall k :: 0 <= k < |messages| ==> t[k + 1] == ToEntry(messages[k])
  {
    [RoleContent("user", input)] + seq(|messages|, k requires 0 <= k < |messages| => ToEntry(messages[k]))
  }

  /** The last `n` entries of `t`, or all of `t` when it is no longer than `n`. */
  function LastEntries(t: seq<Entry>, n: nat): (w: seq<Entry>)
    ensures |w| == (if |t| > n then n else |t|)
    ensures w == t[|t| - |w|..]
  {
    if |t| > n then t[|t| - n..] else t
  }

  /** The list `save_short_message` builds: the transcript, cut down to its last `StmLimit`
      entries when it is longer. */
  method ShortTermWindow(state: SharedState) returns (window: seq<Entry>)
    ensures window == LastEntries(Transcript(state.inputMessage.GetOr(""), state.messages.GetOr([])), StmLimit)
  {
    var input := state.inputMessage.GetOr("");
    var messages := [RoleContent("user", input)];
    var aiMessages := state.messages.GetOr([]);
    for i := 0 to |aiMessages|
      invariant |messages| == i + 1
      invariant messages[0] == RoleContent("user", input)
      invariant forall k :: 0 <= k < i ==> messages[k + 1] == ToEntry(aiMessages[k])
    {
      var m := aiMessages[i];
      if m.Message? {
        var role := if m.kind == "ai" then "assistant" else "user";
        messages := messages + [RoleContent(role, m.content)];
      } else {
        messages := messages + [Verbatim(m)];
      }
    }
    assert messages == Transcript(input, aiMessages);
    if |messages| > StmLimit {
      messages := messages[|messages| - StmLimit..];
    }
    window := messages;
  }

  /** The node itself: it builds the window and then returns nothing, because its `return`
      is commented out, so the graph receives no update and the state is left as it was. */
  method SaveShortMessage(state: SharedState) returns (update: Option<SharedState>)
    ensures update == None
  {
    var window := ShortTermWindow(state);
    update := None;
  }

  /** The window ends with the entry of the newest message. */
  lemma WindowEndsWithNewest(input: string, messages: seq<Item>)
    requires messages != []
    ensures var w := LastEntries(Transcript(input, messages), StmLimit);
      w[|w| - 1] == ToEntry(messages[|messages| - 1])
  {
    var t := Transcript(input, messages);
    var w := LastEntries(t, StmLimit);
    assert w[|w| - 1] == t[|t| - 1];
  }

  /** A transcript that fits is kept whole, the user's input first. */
  lemma WindowKeepsInput(input: string, messages: seq<Item>)
    requires |messages| < StmLimit
    ensures LastEntries(Transcript(input, messages), StmLimit)[0] == RoleContent("user", input)
  {
    var t := Transcript(input, messages);
    assert LastEntries(t, StmLimit) == t;
  }

  /** A transcript that does not fit loses the input: the window is the last five messages. */
  lemma WindowOfLastMessages(input: string, messages: seq<Item>)
    requires |messages| >= StmLimit
    ensures var w := LastEntries(Transcript(input, messages), StmLimit);
      |w| == StmLimit && forall k :: 0 <= k < StmLimit ==> w[k] == ToEntry(messages[|messages| - StmLimit + k])
  {
    var t := Transcript(input, messages);
    var w := LastEntries(t, StmLimit);
    assert w == t[|t| - StmLimit..];
    forall k | 0 <= k < StmLimit ensures w[k] == ToEntry(messages[|messages| - StmLimit + k]) {
      assert w[k] == t[|t| - StmLimit + k];
      assert |t| - StmLimit + k == (|messages| - StmLimit + k) + 1;
    }
  }
}
