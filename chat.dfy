/** Reply extraction in the chat routes (backend/routes/chat.py): how the text sent back to the
    caller is chosen from the state the conversation graph returns. The graph is an oracle. */
module Chat {
  import opened Text
  import opened States

  /** A value stored under "short_messages": a string or a list of strings. */
  datatype ShortValue = Single(text: string) | Many(items: seq<string>)

  /** The graph's reply: its "messages" and its "short_messages" entry, each possibly absent. */
  datatype GraphReply = GraphReply(messages: Option<seq<Item>>, shortMessages: Option<ShortValue>)

  /** `hasattr(msg, 'type') and msg.type == 'ai'` */
  predicate IsAi(m: Item) {
    m.Message? && m.kind == "ai"
  }

  /** The contents of the AI messages, in order. */
  function AiContents(messages: seq<Item>): (r: seq<string>)
    ensures |r| <= |messages|
    decreases |messages|
  {
    if messages == [] then []
    else
      var n := |messages| - 1;
      AiContents(messages[..n]) + (if IsAi(messages[n]) then [messages[n].content] else [])
  }

  /** `reply.get("short_messages", default)`, a list giving its last element or the default
      when it is empty. */
  function ShortOr(v: Option<ShortValue>, default: string): (answer: string)
    ensures v.None? || v == Some(Many([])) ==> answer == default
    ensures v.Some? && v.value.Single? ==> answer == v.value.text
    ensures v.Some? && v.value.Many? && v.value.items != [] ==> answer == v.value.items[|v.value.items| - 1]
  {
    match v
    case None => default
    case Some(Single(text)) => text
    case Some(Many(items)) => if items != [] then items[|items| - 1] else default
  }

  /** The AI contents are empty exactly when no message is an AI message; otherwise the last of
      them is the content of an AI message after which no AI message follows. */
  lemma {:induction false} AiContentsLast(messages: seq<Item>)
    ensures AiContents(messages) == [] <==> forall i :: 0 <= i < |messages| ==> !IsAi(messages[i])
    ensures AiContents(messages) != [] ==>
      exists j :: 0 <= j < |messages| && IsAi(messages[j])
        && AiContents(messages)[|AiContents(messages)| - 1] == messages[j].content
        && forall k :: j < k < |messages| ==> !IsAi(messages[k])
    decreases |messages|
  {
    if messages != [] {
      var n := |messages| - 1;
      var prefix := messages[..n];
      AiContentsLast(prefix);
      var ai := AiContents(messages);
      if IsAi(messages[n]) {
        assert ai[|ai| - 1] == messages[n].content;
      } else {
        assert ai == AiContents(prefix);
        if ai != [] {
          var j :| 0 <= j < |prefix| && IsAi(prefix[j]) && ai[|ai| - 1] == prefix[j].content
                   && forall k :: j < k < |prefix| ==> !IsAi(prefix[k]);
          assert forall k :: j < k < |messages| ==> !IsAi(messages[k]) by {
            forall k | j < k < |messages| ensures !IsAi(messages[k]) {
              if k < n { assert messages[k] == prefix[k]; }
            }
          }
        }
        forall i | 0 <= i < n ensures messages[i] == prefix[i] { }
      }
    }
  }

  /** The extraction block shared by both endpoints: the content of the last AI message when
      there is one, else the "short_messages" value or the default that fits the case. */
  function ReplyAnswer(reply: GraphReply): (answer: string)
    ensures var ms := reply.messages.GetOr([]);
      (exists i :: 0 <= i < |ms| && IsAi(ms[i])) ==>
        exists j :: 0 <= j < |ms| && IsAi(ms[j]) && answer == ms[j].content
          && forall k :: j < k < |ms| ==> !IsAi(ms[k])
    ensures var ms := reply.messages.GetOr([]);
      (forall i :: 0 <= i < |ms| ==> !IsAi(ms[i])) ==>
        answer == ShortOr(reply.shortMessages, if ms == [] then "No response generated" else "No AI response generated")
  {
    var messages := reply.messages.GetOr([]);
    AiContentsLast(messages);
    if messages != [] then
      var ai := AiContents(messages);
      if ai != [] then ai[|ai| - 1] else ShortOr(reply.shortMessages, "No AI response generated")
    else ShortOr(reply.shortMessages, "No response generated")
  }

  /** The chat endpoint's response model. */
  datatype MessageOut = MessageOut(aiResponse: string, source: string)

  /** The state both endpoints start the graph with. */
  function InitialState(input: string): (s: SharedState)
    ensures s.inputMessage == Some(input) && s.messages == Some([])
    ensures s.intent.None? && s.shortMessage.None?
  {
    SharedState(Some(input), None, None, Some([]))
  }

  /** `chat_text`: the text is stripped, the graph runs on the thread of the caller's `sub`, and
      the response always comes from the "bot". */
  function ChatText(text: string, sub: string, graph: (SharedState, string) -> GraphReply): (out: MessageOut)
    ensures out.source == "bot"
    ensures out.aiResponse == ReplyAnswer(graph(InitialState(Strip(text)), sub))
  {
    MessageOut(ReplyAnswer(graph(InitialState(Strip(text)), sub)), "bot")
  }

  /** The transcription endpoint's JSON response. */
  datatype TranscribeResponse = TranscribeResponse(text: string, aiResponse: string, audioUrl: string, tag: string)

  /** `transcribe_audio`, from the transcription onwards: the graph runs only on a non-empty
      transcription, which is passed on unstripped. */
  function TranscribeAudio(transcribed: string, uniqueName: string, sub: string,
                           graph: (SharedState, string) -> GraphReply): (r: TranscribeResponse)
    ensures r.text == transcribed && r.audioUrl == "/audio/" + uniqueName && r.tag == "transcribed"
    ensures transcribed == "" ==> r.aiResponse == ""
    ensures transcribed != "" ==> r.aiResponse == ReplyAnswer(graph(InitialState(transcribed), sub))
  {
    var answer := if transcribed != "" then ReplyAnswer(graph(InitialState(transcribed), sub)) else "";
    TranscribeResponse(transcribed, answer, "/audio/" + uniqueName, "transcribed")
  }

  /** An empty transcription never reaches the graph: any two graphs give the same response. */
  lemma EmptyTranscriptionSkipsGraph(uniqueName: string, sub: string, g1: (SharedState, string) -> GraphReply,
                                     g2: (SharedState, string) -> GraphReply)
    ensures TranscribeAudio("", uniqueName, sub, g1) == TranscribeAudio("", uniqueName, sub, g2)
  {
  }

  /** Both endpoints answer alike for the same text when it needs no stripping. */
  lemma EndpointsAgree(text: string, uniqueName: string, sub: string, graph: (SharedState, string) -> GraphReply)
    requires text != "" && Strip(text) == text
    ensures TranscribeAudio(text, uniqueName, sub, graph).aiResponse == ChatText(text, sub, graph).aiResponse
  {
  }
}
