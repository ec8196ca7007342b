/** The `general_question` node and its two retrieval tools (backend/llm/node_general_question.py).
    The vector store, the embedder, the agent and the language model are oracles: the tools
    receive what the store and the embedder answered, the node what the agent and the model
    produced. */
module GeneralQuestion {
  import opened Text
  import opened States
  import opened CollectionDb

  datatype Result<T> = Ok(value: T) | Err(error: string)

  /** What fetching a collection and counting its entries gave: the fetch failed, the count
      failed, or the collection holds `count` entries. */
  datatype Lookup = Missing(error: string) | CountFailed(error: string) | Present(count: nat)

  /** One query result: the document, its metadata and its distance to the query. */
  datatype Hit = Hit(document: string, metadata: map<string, string>, distance: real)

  /** The value `global_thread_id` starts with, meaning "no conversation yet". */
  const UnsetThreadId: string := "xxx"

  function Min(a: int, b: int): (m: int)
    ensures m <= a && m <= b && (m == a || m == b)
  {
    if a <= b then a else b
  }

  /** `1 - min(distance, 2.0) / 2.0` */
  function Relevance(d: real): (r: real)
    ensures 0.0 <= d ==> 0.0 <= r <= 1.0
    ensures r == 1.0 <==> d == 0.0
    ensures 2.0 <= d ==> r == 0.0
  {
    1.0 - (if d <= 2.0 then d else 2.0) / 2.0
  }

  /** A greater distance never gives a greater relevance. */
  lemma RelevanceAntitone(d1: real, d2: real)
    requires d1 <= d2
    ensures Relevance(d2) <= Relevance(d1)
  {
  }

  /** `metadata.get(key, "unknown")` */
  function MetaOr(metadata: map<string, string>, key: string): string {
    if key in metadata then metadata[key] else "unknown"
  }

  /** The numbering at the head of a result line, `[{i+1}] `. */
  function RankTag(rank: nat): (tag: string)
    ensures |tag| >= 4 && tag[0] == '[' && tag[|tag| - 2..] == "] "
    ensures var numeral := tag[1..|tag| - 2];
      (forall k :: 0 <= k < |numeral| ==> IsDigit(numeral[k])) && ParseNat(numeral) == rank
  {
    var numeral := NatToString(rank);
    ParseNatToString(rank);
    var tag := "[" + numeral + "] ";
    assert tag[1..|tag| - 2] == numeral;
    tag
  }

  /** One formatted result. The two-decimal rendering of the score is the parameter `score`. */
  function HitLine(rank: nat, h: Hit, score: real -> string): (line: string)
    ensures |RankTag(rank)| <= |line| && line[..|RankTag(rank)|] == RankTag(rank)
  {
    RankTag(rank) + LineBody(h, score)
  }

  /** `{TYPE} ({timestamp}): {doc}\n   Relevance: {score}` */
  function LineBody(h: Hit, score: real -> string): string {
    Upper(MetaOr(h.metadata, "message_type")) + " (" + MetaOr(h.metadata, "timestamp") + "): "
    + h.document + "\n   Relevance: " + score(Relevance(h.distance))
  }

  /** A stored rule carries only its category, so its line shows neither a type nor a time. */
  lemma RuleLineBody(h: Hit, category: string, score: real -> string)
    requires h.metadata == map["category" := category]
    ensures LineBody(h, score) == "UNKNOWN (unknown): " + h.document + "\n   Relevance: " + score(Relevance(h.distance))
  {
    assert "message_type" !in h.metadata && "timestamp" !in h.metadata;
    assert Upper("unknown") == "UNKNOWN";
  }

  /** The result lines, numbered from 1 in the order the store returned the hits. */
  function Lines(hits: seq<Hit>, score: real -> string): (lines: seq<string>)
    ensures |lines| == |hits|
  {
    seq(|hits|, k requires 0 <= k < |hits| => HitLine(k + 1, hits[k], score))
  }

  /** Line `k` of the listing starts with `[k+1] `: the results are numbered 1..n in the order
      the store returned them. */
  lemma LinesNumbered(hits: seq<Hit>, score: real -> string)
    ensures forall k :: 0 <= k < |hits| ==>
      |RankTag(k + 1)| <= |Lines(hits, score)[k]| && Lines(hits, score)[k][..|RankTag(k + 1)|] == RankTag(k + 1)
  {
    forall k | 0 <= k < |hits|
      ensures |RankTag(k + 1)| <= |Lines(hits, score)[k]| && Lines(hits, score)[k][..|RankTag(k + 1)|] == RankTag(k + 1)
    {
      var head := RankTag(k + 1);
      assert Lines(hits, score)[k] == head + LineBody(hits[k], score);
      assert (head + LineBody(hits[k], score))[..|head|] == head;
    }
  }

  lemma LinesSnoc(hits: seq<Hit>, i: nat, score: real -> string)
    requires i < |hits|
    ensures Lines(hits[..i + 1], score) == Lines(hits[..i], score) + [HitLine(i + 1, hits[i], score)]
  {
    var a := Lines(hits[..i + 1], score);
    var b := Lines(hits[..i], score);
    forall k | 0 <= k < i ensures a[k] == b[k] {
      assert hits[..i + 1][k] == hits[..i][k];
    }
    assert a[i] == HitLine(i + 1, hits[i], score) by {
      assert hits[..i + 1][i] == hits[i];
    }
  }

  /** The formatting loop shared by both tools. */
  method FormatHits(hits: seq<Hit>, score: real -> string) returns (lines: seq<string>)
    ensures lines == Lines(hits, score)
  {
    lines := [];
    for i := 0 to |hits|
      invariant lines == Lines(hits[..i], score)
    {
      LinesSnoc(hits, i, score);
      lines := lines + [HitLine(i + 1, hits[i], score)];
    }
    assert hits[..|hits|] == hits;
  }

  /** The number read from a listing's header, right after `"Found "`. */
  function HeaderCount(text: string): nat
    requires |text| >= 6
  {
    ParseNat(TakeDigits(text[6..]))
  }

  /** `f"Found {len(lines)} relevant {noun}:\n\n" + "\n\n".join(lines)`: the count read from the
      header is the number of lines listed. */
  function Listing(noun: string, lines: seq<string>): (text: string)
    ensures |text| >= 6 && text[..6] == "Found " && HeaderCount(text) == |lines|
  {
    var digits := NatToString(|lines|);
    var rest := " relevant " + noun + ":\n\n" + JoinWith(lines, "\n\n");
    var text := "Found " + digits + rest;
    assert text[6..] == digits + rest;
    TakeDigitsOfNumeral(digits, rest);
    ParseNatToString(|lines|);
    text
  }

  /** `game_ruling(query, top_k)`: every outcome, failures included, is a returned string. The
      store is asked for `min(top_k, count)` results, and only once the collection is known to
      be non-empty and the query embedded. */
  method GameRuling(query: string, topK: int, lookup: Lookup, embedding: Result<seq<real>>,
                    search: (seq<real>, int) -> Result<seq<Hit>>, score: real -> string)
    returns (reply: string)
    ensures (lookup.Missing? || lookup.CountFailed?) ==>
      reply == "No document rule found. Collection '" + GameCollectionName + "' does not exist. \nQuery: " + query + "\nError: " + lookup.error
    ensures lookup == Present(0) ==> reply == "No documents found in collection '" + GameCollectionName + "'."
    ensures lookup.Present? && lookup.count > 0 && embedding.Err? ==> reply == "Error generating embedding: " + embedding.error
    ensures lookup.Present? && lookup.count > 0 && embedding.Ok? ==>
      var found := search(embedding.value, Min(topK, lookup.count));
      && (found.Err? ==> reply == "Error querying collection: " + found.error)
      && (found.Ok? && found.value == [] ==> reply == "No relevant document rule found.")
      && (found.Ok? && found.value != [] ==> reply == Listing("document rules", Lines(found.value, score)))
  {
    if !lookup.Present? {
      return "No document rule found. Collection '" + GameCollectionName + "' does not exist. \nQuery: " + query + "\nError: " + lookup.error;
    }
    var count := lookup.count;
    if count == 0 {
      return "No documents found in collection '" + GameCollectionName + "'.";
    }
    if embedding.Err? {
      return "Error generating embedding: " + embedding.error;
    }
    var found := search(embedding.value, Min(topK, count));
    if found.Err? {
      return "Error querying collection: " + found.error;
    }
    if found.value == [] {
      return "No relevant document rule found.";
    }
    var lines := FormatHits(found.value, score);
    reply := Listing("document rules", lines);
  }

  /** `filter_user`: `None` searches every entry, `True` only the user's, `False` only the AI's. */
  function RoleFilter(filterUser: Option<bool>): (where: Option<string>)
    ensures where.None? <==> filterUser.None?
    ensures where.Some? ==> (where.value == "user" <==> filterUser.value)
    ensures where.Some? ==> (where.value == "ai" <==> !filterUser.value)
  {
    match filterUser
    case None => None
    case Some(user) => Some(if user then "user" else "ai")
  }

  /** `not global_thread_id or global_thread_id == "xxx"` is false. */
  predicate HasThreadId(g: Option<string>) {
    g.Some? && g.value != "" && g.value != UnsetThreadId
  }

  /** `fallback_direct_llm`: the model's answer, or an apology carrying the error; either way
      there is an output. */
  function FallbackDirectLlm(input: string, llm: string -> Run): (output: string)
    ensures llm(input).Output? ==> output == llm(input).text
    ensures llm(input).Raised? ==> output == "I'm having technical difficulties. Error: " + llm(input).error
  {
    match llm(input)
    case Output(text) => text
    case Raised(error) => "I'm having technical difficulties. Error: " + error
  }

  /** What the agent step yields for the input: the agent's output, or the direct model's when
      the agent raises. */
  function AgentAnswer(input: string, agent: string -> Run, llm: string -> Run): string {
    match agent(input)
    case Output(text) => text
    case Raised(_) => FallbackDirectLlm(input, llm)
  }

  /** `{**state, "short_message": note, "messages": state.get("messages", []) + [AIMessage(content)]}` */
  function WithReply(state: SharedState, note: string, content: string): (r: SharedState)
    ensures r.inputMessage == state.inputMessage && r.intent == state.intent
    ensures r.shortMessage == Some(note)
    ensures r.messages.Some?
  {
    state.(shortMessage := Some(note), messages := Some(state.messages.GetOr([]) + [AiMessage(content)]))
  }

  /** The reply keeps every earlier message and adds exactly one AI message at the end. */
  lemma WithReplyAppendsOne(state: SharedState, note: string, content: string)
    ensures var before := state.messages.GetOr([]);
      var after := WithReply(state, note, content).messages.value;
      && |after| == |before| + 1
      && after[..|before|] == before
      && after[|before|] == Message("ai", content)
  {
  }

  const ToolsNote: string := "node fallback with tools"
  const ErrorNote: string := "node fallback - error occurred"

  /** The module state of node_general_question.py: `global_thread_id`, which the node sets and
      the history tool reads. */
  class ToolSession {
    var globalThreadId: Option<string>

    constructor ()
      ensures globalThreadId == Some(UnsetThreadId)
    {
      globalThreadId := Some(UnsetThreadId);
    }

    /** `search_conversation_history(query, filter_user, top_k, offset)`. Without a usable
        thread id the store is not consulted. The store is asked for `min(offset + top_k, count)`
        results, filtered by role, and the listing starts at the first of them: `offset` skips
        nothing. */
    method SearchConversationHistory(query: string, filterUser: Option<bool>, topK: int, offset: int,
                                     lookup: string -> Lookup, embedding: Result<seq<real>>,
                                     search: (seq<real>, int, Option<string>) -> Result<seq<Hit>>,
                                     score: real -> string)
      returns (reply: string)
      ensures !HasThreadId(globalThreadId) ==> reply == "No conversation thread ID available."
      ensures HasThreadId(globalThreadId) ==>
        var id := globalThreadId.value;
        && (lookup(id).Missing? ==>
              reply == "No conversation history found. Collection '" + id + "' does not exist. \nQuery: " + query + "\nError: " + lookup(id).error)
        && (lookup(id).CountFailed? ==> reply == "Error searching conversation history: " + lookup(id).error)
        && (lookup(id) == Present(0) ==> reply == "No conversation history available in collection '" + id + "'.")
        && (lookup(id).Present? && lookup(id).count > 0 && embedding.Err? ==>
              reply == "Error generating embedding for query: " + embedding.error)
        && (lookup(id).Present? && lookup(id).count > 0 && embedding.Ok? ==>
              var found := search(embedding.value, Min(offset + topK, lookup(id).count), RoleFilter(filterUser));
              && (found.Err? ==> reply == "Error querying collection: " + found.error)
              && (found.Ok? && found.value == [] ==> reply == "No relevant conversation history found.")
              && (found.Ok? && found.value != [] ==> reply == Listing("conversation entries", Lines(found.value, score))))
    {
      if !HasThreadId(globalThreadId) {
        return "No conversation thread ID available.";
      }
      var id := globalThreadId.value;
      var fetched := lookup(id);
      if fetched.Missing? {
        return "No conversation history found. Collection '" + id + "' does not exist. \nQuery: " + query + "\nError: " + fetched.error;
      }
      if fetched.CountFailed? {
        return "Error searching conversation history: " + fetched.error;
      }
      var count := fetched.count;
      if count == 0 {
        return "No conversation history available in collection '" + id + "'.";
      }
      if embedding.Err? {
        return "Error generating embedding for query: " + embedding.error;
      }
      var where := RoleFilter(filterUser);
      var nFetch := Min(offset + topK, count);
      var found := search(embedding.value, nFetch, where);
      if found.Err? {
        return "Error querying collection: " + found.error;
      }
      if found.value == [] {
        return "No relevant conversation history found.";
      }
      var lines := FormatHits(found.value, score);
      reply := Listing("conversation entries", lines);
    }

    /** The node: it records the thread id for the tools, runs the agent on the input (falling
        back on the model alone when the agent raises) and appends exactly one AI message. An
        absent input raises `KeyError('input_message')`, which the outer handler turns into the
        message text. */
    method GeneralQuestionNode(state: SharedState, configThreadId: Option<string>,
                               agent: string -> Run, llm: string -> Run)
      returns (r: SharedState)
      modifies this
      ensures globalThreadId == configThreadId
      ensures state.inputMessage.None? ==> r == WithReply(state, ErrorNote, "'input_message'")
      ensures state.inputMessage.Some? ==>
        r == WithReply(state, ToolsNote, AgentAnswer(state.inputMessage.value, agent, llm))
    {
      globalThreadId := configThreadId;
      if state.inputMessage.None? {
        return WithReply(state, ErrorNote, "'input_message'");
      }
      var input := state.inputMessage.value;
      var output: string;
      match agent(input) {
        case Output(text) =>
          output := text;
        case Raised(_) =>
          output := FallbackDirectLlm(input, llm);
      }
      r := WithReply(state, ToolsNote, output);
    }
  }
}
