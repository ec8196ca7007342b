# Tongits helpdesk backend: a Dafny model of its conversation core

The backend answers questions about the card game Tongits. A chat message, typed or
transcribed from speech, enters a conversation graph whose nodes share a state (`SharedState`).
The backend defines node functions that classify the message's intent, keep a short-term window
of the conversation, store every turn in a per-thread vector-store collection, and answer with a
language-model agent. The agent has two retrieval tools: the game-rules collection and the
thread's history. The routes then pull the answer out of the final state.

The graph as compiled in `backend/llm/node_main.py` runs only three nodes: `node_initializer`,
`node_intent_router` and `node_save_conversation`. The intent classifier is commented out of it,
and the short-term and full-conversation nodes are not added to it. This project models those
node functions as they are written, whether the compiled graph calls them or not.

This project models that core in Dafny, one module per source file:

- `States` (`backend/llm/states.py`): the shared state and its last-write-wins reducer.
- `IntentClassifier` (`backend/llm/node_intent_classifier.py`): turns the model's comma-separated
  answer into a duplicate-free, priority-ordered, non-empty intent list.
- `ShortMessage` (`backend/llm/node_save_short_message.py`): the five-entry short-term window.
- `FullConversation` (`backend/llm/node_save_full_conversation.py`): the batch of documents,
  metadata and ids written to the thread's collection.
- `GeneralQuestion` (`backend/llm/node_general_question.py`): the two retrieval tools, the
  relevance score, the result listing, and the node with its fallbacks.
- `CollectionDb` (`backend/collection_db.py`): loading the rules file into the rules collection,
  and the process-wide cache.
- `Chat` (`backend/routes/chat.py`): picking the reply text from the graph's final state.
- `VoiceCpp` (`backend/repository/voicecpp.py`): the upload's file names, the choice of result
  after the recogniser runs, and the removal of bracketed timestamps.

Two supporting modules hold what the source takes from its environment. `Text` models the
Python string operations the code uses (`strip`, `split`, `join`, `upper`, `replace`, `str(int)`).
`Chroma` models the vector store as a class whose map of named collections is updated in place.

Everything outside the process is a parameter: the language model, the agent, the embedder, the
store's similarity search, the clock, `uuid4()` and the recogniser's run. For example, the clock
and `uuid4()` are a function `stamps: nat -> Stamp`. Slot 0 is drawn for the user's input and
slot `k + 1` for message `k`.

Where the code and its own comments or docstrings disagree, the model follows the code:

- The comment on the relevance `1 - min(distance, 2.0) / 2.0` says it normalises to a 0-1
  scale. That holds only for non-negative distances, because a negative distance is not clamped.
- The docstring of `search_conversation_history` says `offset` skips results. The code only adds
  it to the number of results fetched, and lists them from the first.
- The docstring of `game_ruling` gives 5 as the default of `top_k`; the signature's default is 3.
  The model takes `top_k` as a parameter and has no default.

Other behaviour of the code worth knowing:

- `game_ruling` formats rule hits with the conversation history's line format. It prints the
  `message_type` and `timestamp` metadata, which rule entries do not have (they carry only a
  category), so every rule line reads `UNKNOWN (unknown): ...`.
- In `save_full_conversation` only the fetch of the thread's collection is guarded: a failed
  `get_collection` falls back to `create_collection`. Building the batch and the `add` call have
  no handler, so a failure there reaches the graph. The model keeps the one such failure it can
  express: messages with no input raise `KeyError`.
- The history filter is `filter_user: Optional[bool]`, and `False` selects the type "ai".

The routes read the key `"short_messages"`, which no node writes. The node that would have
written it has its `return` commented out, so it returns no update.

## Model

| member | source | states |
|---|---|---|
| States.Merge | backend/llm/states.py:7-9 | a non-`None` update replaces the previous value, and `None` keeps it |
| States.ApplyUpdate | backend/llm/states.py:5-10 | each annotated key is merged by the reducer, and `messages` is left to its own reducer |
| States.MergeIdempotent | backend/llm/states.py:7-9 | applying the same update twice is applying it once |
| States.MergeLastWriteWins | backend/llm/states.py:7-9 | of two successive updates, the later one decides unless it is `None` |
| States.ApplyUpdateLaws | backend/llm/states.py:5-10 | the empty update is neutral, updates are idempotent, and two updates compose into one |
| Text.StripStart | backend/llm/node_save_full_conversation.py:51 | the whole leading run of whitespace is removed and nothing else |
| Text.StripEnd | backend/llm/node_save_full_conversation.py:51 | the whole trailing run of whitespace is removed and nothing else |
| Text.Strip | backend/routes/chat.py:90 | the stripped text is no longer than the input and has whitespace at neither end |
| Text.StripEmptyIffAllSpace | backend/llm/node_save_full_conversation.py:51 | `s.strip() == ""` holds exactly when `s` is all whitespace |
| Text.IsBlank | backend/llm/node_save_full_conversation.py:51 | the skip test `not content or content.strip() == ""` holds exactly for all-whitespace content |
| Text.StripIdempotent | backend/routes/chat.py:90 | stripping an already stripped text changes nothing |
| Text.Upper | backend/llm/node_general_question.py:72 | ASCII lower-case letters become upper-case and every other character is kept, at the same length |
| Text.Split | backend/llm/node_intent_classifier.py:86 | splitting gives at least one piece and no piece holds the separator |
| Text.JoinSplit | backend/llm/node_intent_classifier.py:86 | splitting on the separator loses nothing: the pieces joined back give the input |
| Text.SplitJoin | backend/llm/node_intent_classifier.py:86 | pieces free of the separator are recovered by splitting their join |
| Text.NatToString | backend/llm/node_general_question.py:76 | the rendering is a non-empty run of decimal digits |
| Text.JoinWith | backend/llm/node_general_question.py:76 | the parts with the separator between consecutive ones; the empty list gives "" |
| Text.ParseNatToString | backend/llm/node_general_question.py:72 | the rendered rank or count reads back as the same number |
| Text.ReplaceAll | backend/repository/voicecpp.py:45 | replacing a pattern by itself changes nothing, and a replacement no longer than the pattern never lengthens the text |
| Text.ReplaceSkipsPrefix | backend/repository/voicecpp.py:45 | `replace` leaves alone a prefix free of the pattern's first character |
| IntentClassifier.Pieces | backend/llm/node_intent_classifier.py:86 | splitting the model's answer always yields at least one piece |
| IntentClassifier.SortByPriority | backend/llm/node_intent_classifier.py:97-104 | ordering the set of labels keeps exactly the labels that are in it |
| IntentClassifier.Validate | backend/llm/node_intent_classifier.py:91-95 | a piece maps to `general_question` exactly when it is that label, and to `fallback` otherwise |
| IntentClassifier.ValidatePieces | backend/llm/node_intent_classifier.py:90-95 | the validation loop maps every piece, in order, to its label |
| IntentClassifier.SortByPriorityWellFormed | backend/llm/node_intent_classifier.py:97-104 | sorting a non-empty set of labels by priority gives a duplicate-free list in priority order |
| IntentClassifier.Deduplicate | backend/llm/node_intent_classifier.py:97-109 | the result is well formed and holds exactly the validated labels, or is `["fallback"]` when there are none |
| IntentClassifier.Normalise | backend/llm/node_intent_classifier.py:89-109 | `general_question` is in the result exactly when some piece is that label, and `fallback` exactly when some piece is not |
| IntentClassifier.WellFormedIntentShapes | backend/llm/node_intent_classifier.py:97-109 | a well-formed intent list is `[gq]`, `[fallback]` or `[gq, fallback]` |
| IntentClassifier.IntentClassifierNode | backend/llm/node_intent_classifier.py:60-122 | a missing input raises `KeyError` and a failing model call raises its error; otherwise the node returns the input state with `intent` set to a well-formed list that names `general_question` exactly when a piece is that label and `fallback` exactly when some piece is not |
| ShortMessage.ToEntry | backend/llm/node_save_short_message.py:25-34 | a message becomes an entry with role "assistant" for AI messages and "user" otherwise, and any other element is kept as it is |
| ShortMessage.Transcript | backend/llm/node_save_short_message.py:21-34 | the transcript is the user's input followed by one entry per message, in order |
| ShortMessage.LastEntries | backend/llm/node_save_short_message.py:36-37 | the window is the last `n` entries, or all of them when they fit |
| ShortMessage.ShortTermWindow | backend/llm/node_save_short_message.py:17-37 | the loop builds the transcript and truncates it to its last five entries |
| ShortMessage.SaveShortMessage | backend/llm/node_save_short_message.py:39-43 | the node returns no update |
| ShortMessage.WindowEndsWithNewest | backend/llm/node_save_short_message.py:24-37 | the window ends with the entry of the newest message |
| ShortMessage.WindowKeepsInput | backend/llm/node_save_short_message.py:21-37 | when the transcript fits, the window starts with the user's input |
| ShortMessage.WindowOfLastMessages | backend/llm/node_save_short_message.py:36-37 | when it does not fit, the window is exactly the entries of the last five messages |
| Chroma.WithCollection | backend/llm/node_save_full_conversation.py:15-18 | get-or-create keeps an existing collection and adds a missing one empty |
| Chroma.Store.GetCollection | backend/llm/node_save_full_conversation.py:16 | the fetch succeeds exactly when the collection exists |
| Chroma.Store.CreateCollection | backend/llm/node_save_full_conversation.py:18 | creation succeeds exactly when the name is free, and adds an empty collection |
| Chroma.Store.Add | backend/llm/node_save_full_conversation.py:77-82 | the entries are appended to the named collection, in order, and nothing else changes |
| FullConversation.ContentOf | backend/llm/node_save_full_conversation.py:44-48 | a message's `content`, or `str(message)` for anything else |
| FullConversation.TypeOf | backend/llm/node_save_full_conversation.py:58 | a message's `type`, or "unknown" for anything else |
| FullConversation.RecordId | backend/llm/node_save_full_conversation.py:55 | the id starts with the thread id and "_" and ends with the uuid |
| FullConversation.InputRow | backend/llm/node_save_full_conversation.py:31-41 | the input's row: its text, "user" metadata and the id of slot 0 |
| FullConversation.MessageRow | backend/llm/node_save_full_conversation.py:54-70 | a message's row: its content, its type's metadata and the id of its slot |
| FullConversation.Metadata | backend/llm/node_save_full_conversation.py:61-65 | the metadata carries the thread id, the message type and the timestamp |
| FullConversation.Rows | backend/llm/node_save_full_conversation.py:43-70 | the message rows are built in order, at most one per message |
| FullConversation.RowOf | backend/llm/node_save_full_conversation.py:43-70 | a blank message contributes no row; any other exactly one, carrying its content, its type and its own stamp |
| FullConversation.RowsSnoc | backend/llm/node_save_full_conversation.py:43-70 | one more message adds its row, or nothing when it is blank |
| FullConversation.Batch | backend/llm/node_save_full_conversation.py:31-41 | the batch is the input's row followed by the message rows |
| FullConversation.Entries | backend/llm/node_save_full_conversation.py:75-82 | each stored entry pairs a row with the embedding of its document |
| FullConversation.BatchStep | backend/llm/node_save_full_conversation.py:43-70 | one turn of the loop leaves the three lists alone for a blank message and otherwise extends each by that message's document, metadata and id |
| FullConversation.BuildBatch | backend/llm/node_save_full_conversation.py:27-70 | the loop's three lists are the documents, metadata and ids of the batch |
| FullConversation.SaveFullConversation | backend/llm/node_save_full_conversation.py:12-82 | the collection exists afterwards; with no messages the state is returned, with no input the node raises, and otherwise the batch is appended |
| FullConversation.RowsNonBlank | backend/llm/node_save_full_conversation.py:50-65 | every stored message row has a non-blank document and the thread's id |
| FullConversation.RowsAreNonBlankContents | backend/llm/node_save_full_conversation.py:43-70 | the stored message documents are exactly the non-blank contents, in order |
| FullConversation.BatchSize | backend/llm/node_save_full_conversation.py:31-70 | the batch holds one entry for the input plus one per non-blank message |
| FullConversation.RecordIdSuffix | backend/llm/node_save_full_conversation.py:55 | two ids of one thread built from uuids of equal length are equal only when the uuids are |
| FullConversation.RowsAvoidSlot | backend/llm/node_save_full_conversation.py:37-55 | when the uuids drawn up to some slot are distinct, no message row's id equals the id of a slot outside the messages' own slots |
| FullConversation.RowsIdsDistinct | backend/llm/node_save_full_conversation.py:55 | the message rows' ids are pairwise distinct when the uuids drawn for their slots are |
| FullConversation.BatchIdsDistinct | backend/llm/node_save_full_conversation.py:37-55 | every id in the batch, the input's included, is distinct when the uuids drawn for the batch's slots are |
| CollectionDb.RuleText | backend/collection_db.py:45 | the text starts with "Q: ", ends with the answer, and is seven characters longer than question and answer together |
| CollectionDb.InitResult | backend/collection_db.py:18-32 | the initialisation raises `FileNotFoundError` exactly when the rules collection was missing and the file is absent |
| CollectionDb.RuleEntry | backend/collection_db.py:44-53 | a rule is stored under its id, as `Q: ... A: ...` with that text's embedding, and with its category |
| CollectionDb.RuleEntries | backend/collection_db.py:44-53 | the rules become entries one for one, in file order |
| CollectionDb.AfterInit | backend/collection_db.py:16-55 | the rules collection exists afterwards and every other collection keeps its name and entries; an existing rules collection keeps its entries, and a new one holds one entry per rule in file order, or none when the file is missing |
| CollectionDb.InitializeChromaCollection | backend/collection_db.py:16-55 | an existing collection is kept; otherwise it is created, and then filled one record at a time or left empty when the file is missing |
| CollectionDb.InitialiseTwice | backend/collection_db.py:16-55 | a second initialisation succeeds and adds nothing, even after a first one that found no file |
| CollectionDb.RulesCache.GetCollectionGameRules | backend/collection_db.py:57-62 | a cached collection is returned without touching the store; otherwise the store is initialised and the cache is filled only on success |
| CollectionDb.SplitAtFirst | backend/collection_db.py:45 | a split found at the separator puts the text back together |
| CollectionDb.ColonFreeSeparatorAfter | backend/collection_db.py:45 | no `" A: "` can start inside a question without a colon |
| CollectionDb.SplitAtQuestion | backend/collection_db.py:45 | a question inside which no `" A: "` starts is split off at the first `" A: "` |
| CollectionDb.RuleTextRoundTrip | backend/collection_db.py:45 | question and answer read back from the stored text whenever no `" A: "` starts inside the question |
| GeneralQuestion.Min | backend/llm/node_general_question.py:48 | the smaller of two numbers |
| GeneralQuestion.Relevance | backend/llm/node_general_question.py:67 | the score lies in [0, 1] for non-negative distances, is 1 exactly at distance 0, and is 0 from distance 2 on |
| GeneralQuestion.RelevanceAntitone | backend/llm/node_general_question.py:67 | a greater distance never gives a greater score |
| GeneralQuestion.MetaOr | backend/llm/node_general_question.py:68-69 | the metadata value under the key, or "unknown" |
| GeneralQuestion.LineBody | backend/llm/node_general_question.py:67-73 | the upper-cased type, the timestamp, the document and the rendered relevance |
| GeneralQuestion.RuleLineBody | backend/llm/node_general_question.py:67-73 | a rule hit, whose metadata holds only its category, is shown as `UNKNOWN (unknown)` |
| GeneralQuestion.RankTag | backend/llm/node_general_question.py:72 | the tag is `[`, a numeral that reads back as the rank, and `] ` |
| GeneralQuestion.HitLine | backend/llm/node_general_question.py:71-73 | a result line starts with its rank tag |
| GeneralQuestion.Lines | backend/llm/node_general_question.py:60-74 | one line per hit |
| GeneralQuestion.LinesNumbered | backend/llm/node_general_question.py:71-72 | line `k` starts with `[k+1] `, in the order the store returned the hits |
| GeneralQuestion.LinesSnoc | backend/llm/node_general_question.py:60-74 | one more hit adds its numbered line at the end |
| GeneralQuestion.FormatHits | backend/llm/node_general_question.py:60-74 | the formatting loop yields the numbered lines of the hits |
| GeneralQuestion.Listing | backend/llm/node_general_question.py:76 | the listing starts with "Found " and the count read from its header is the number of lines listed |
| GeneralQuestion.GameRuling | backend/llm/node_general_question.py:25-82 | each failure has its own message, `min(top_k, count)` results are requested, and results are listed in order |
| GeneralQuestion.HasThreadId | backend/llm/node_general_question.py:116 | a thread id is usable when it is set, non-empty and not the placeholder "xxx" |
| GeneralQuestion.AgentAnswer | backend/llm/node_general_question.py:320-332 | the agent's output, or the direct model's answer when the agent raises |
| GeneralQuestion.RoleFilter | backend/llm/node_general_question.py:139-142 | `None` filters nothing, `True` keeps only user entries, and `False` only AI entries |
| GeneralQuestion.FallbackDirectLlm | backend/llm/node_general_question.py:365-377 | the model's answer, or an apology carrying the error it raised |
| GeneralQuestion.WithReply | backend/llm/node_general_question.py:344-348 | the state keeps its input and intent, and `short_message` is set to the note |
| GeneralQuestion.WithReplyAppendsOne | backend/llm/node_general_question.py:347 | the earlier messages are kept and exactly one AI message with the content is added |
| GeneralQuestion.ToolSession.constructor | backend/llm/node_general_question.py:12 | the thread id starts as the placeholder "xxx" |
| GeneralQuestion.ToolSession.SearchConversationHistory | backend/llm/node_general_question.py:112-175 | without a usable thread id nothing is searched; each failure has its own message; `min(offset + top_k, count)` results are requested with the role filter |
| GeneralQuestion.ToolSession.GeneralQuestionNode | backend/llm/node_general_question.py:287-362 | the node records the thread id, and appends the agent's answer (or the direct model's) or the missing-input error |
| CollectionDb.RulesCache.constructor | backend/collection_db.py:10 | the cache starts empty |
| Chroma.Store.constructor | backend/collection_db.py:12 | a fresh store holds no collections |
| Chat.IsAi | backend/routes/chat.py:106 | an element is an AI message when it has a type and that type is "ai" |
| Chat.AiContents | backend/routes/chat.py:106 | the AI messages' contents are collected, at most one per message |
| Chat.ShortOr | backend/routes/chat.py:113-121 | a string value is used as is, a list gives its last element, and an absent key or empty list gives the default |
| Chat.AiContentsLast | backend/routes/chat.py:106-111 | the AI contents are empty exactly when no message is AI; otherwise the last one is the content of an AI message with no AI message after it |
| Chat.ReplyAnswer | backend/routes/chat.py:104-121 | the answer is the last AI message's content, or else the `short_messages` value or the default that fits the case |
| Chat.InitialState | backend/routes/chat.py:92-95 | the graph starts with the input and an empty message list |
| Chat.ChatText | backend/routes/chat.py:82-125 | the text is stripped before the graph runs on the caller's thread, and the source is always "bot" |
| Chat.TranscribeAudio | backend/routes/chat.py:31-70 | an empty transcription gives an empty answer; the audio URL and the tag are fixed by the file name |
| Chat.EmptyTranscriptionSkipsGraph | backend/routes/chat.py:31-32 | with an empty transcription the response does not depend on the graph |
| Chat.EndpointsAgree | backend/routes/chat.py:45-62 | both endpoints give the same answer for the same non-empty, already stripped text |
| VoiceCpp.Hex | backend/repository/voicecpp.py:24 | the rendering has exactly the requested number of lower-case hex digits |
| VoiceCpp.ParseHexOfHex | backend/repository/voicecpp.py:24 | the hex rendering of a value in range reads back as that value |
| VoiceCpp.UniqueName | backend/repository/voicecpp.py:24 | the file name is 32 hex digits followed by ".webm" |
| VoiceCpp.WebmFile | backend/repository/voicecpp.py:25 | the upload path starts with the upload folder and ends with the file name, each followed or preceded by a separator |
| VoiceCpp.WavFile | backend/repository/voicecpp.py:45 | the wav path is never longer than the upload path |
| VoiceCpp.WavBesideWebm | backend/repository/voicecpp.py:24-45 | with no '.' in the folder or the user id, the wav file has the same directory and hex name as the upload |
| VoiceCpp.BracketEnd | backend/repository/voicecpp.py:69 | the shortest `[...]` closes at the first ']' provided no line feed comes first, and does not close otherwise |
| VoiceCpp.RemoveStamps | backend/repository/voicecpp.py:69 | the substitution never lengthens the text |
| VoiceCpp.RemoveStampsKeepsUnclosed | backend/repository/voicecpp.py:69 | a bracket that does not close on its line stays unclosed after removal |
| VoiceCpp.RemoveStampsStampFree | backend/repository/voicecpp.py:69 | no timestamp is left after the substitution |
| VoiceCpp.StampFreeUnchanged | backend/repository/voicecpp.py:69 | text without timestamps passes through unchanged |
| VoiceCpp.RemoveStampsIdempotent | backend/repository/voicecpp.py:69 | cleaning twice is cleaning once |
| VoiceCpp.NoBracketUnchanged | backend/repository/voicecpp.py:69 | text without '[' passes through unchanged |
| VoiceCpp.StampDropped | backend/repository/voicecpp.py:69 | a leading `[x]` goes together with the whitespace after it |
| VoiceCpp.StripStampFree | backend/repository/voicecpp.py:69 | the final `strip` does not bring a timestamp back |
| VoiceCpp.CleanText | backend/repository/voicecpp.py:69 | the cleaned text is stripped and free of timestamps |
| VoiceCpp.SelectResult | backend/repository/voicecpp.py:63-74 | exit code 0 with non-blank output gives the cleaned text, exit code 0 with blank output gives "No transcription found", and any other exit code gives the failure message with stderr |
| VoiceCpp.OnlyStampGivesEmpty | backend/repository/voicecpp.py:63-70 | output that is a single timestamp yields the empty text, not the "No transcription found" message |
| VoiceCpp.TranscribeVoice | backend/repository/voicecpp.py:24-74 | the call raises exactly when the model file is missing, and every returned pair carries the generated name |
| VoiceCpp.ModelMissingNeverReported | backend/repository/voicecpp.py:36-38 | the model-missing message is never returned |
| VoiceCpp.TranscribeVoiceIntended | backend/repository/voicecpp.py:36-43 | the corrected version always returns the generated name, and returns the model-missing message when the model is absent |

## Findings

| source | as written | input that shows it | evidently intended | confidence | as-written member | corrected member |
|---|---|---|---|---|---|---|
| backend/repository/voicecpp.py:36-40 | the model-missing branch reads `exe_path` before it is assigned, so it raises instead of returning | no model file at the configured path | return `("Error: Model not found", unique_name)` as the other error branches do | high, not executed | VoiceCpp.TranscribeVoice | VoiceCpp.TranscribeVoiceIntended |

## Left out

- Language-model calls, the agent executor, prompts and streaming are not modelled. Their results are the parameters `classify` (the intent classifier's chain), `agent` and `llm`, each of which either returns text or raises.
- The sentence embedder and the store's nearest-neighbour ordering are not modelled. Embeddings come from a function parameter, and query results are given in the order the store returns them.
- The two-decimal rendering of the relevance score is the parameter `score`. Floating-point arithmetic is modelled over the reals.
- IntentClassifier.IntentClassifierNode: a state whose `input_message` key is bound to `None` is treated like one without the key, so it fails with `KeyError`. The source would instead pass `None` to the prompt. The state keeps no difference between the two.
- Text.Upper handles ASCII letters only. Python's `str.upper` also maps other scripts.
- Reading and parsing the JSONL file is not modelled. The file is given as its records, or as absent.
- The `add_messages` reducer of the `messages` channel is not modelled. States.ApplyUpdate leaves that channel alone.
- Chroma.Store does not reject duplicate ids or invalid collection names, and does not model persistence.
- A configuration without a thread id is not modelled. The thread id is a plain string in FullConversation and an `Option` in GeneralQuestion.
- Sharing `global_thread_id` between concurrent requests is not modelled. It is one field of a ToolSession object.
- Writing the upload, running ffmpeg and whisper-cli, and the paths given to them are not modelled. The recogniser's run is the input `Process`.
- VoiceCpp.WebmFile joins with '/' and models neither Windows separators nor `os.path.join`'s handling of absolute or slash-ended parts.
- The `short_message` channel is declared as a list of strings but is written as a single string, which is what States keeps.
- Metadata values other than strings are not modelled.
- `zip` truncation to the shortest result list is not modelled. A hit carries its document, metadata and distance together.
- GeneralQuestion.GameRuling: the outermost handler, "Error searching document rule", is not modelled because no step the model represents can reach it.
- GeneralQuestion.ToolSession.GeneralQuestionNode: only a missing input reaches the outer handler in the model. Errors from the tools list and agent construction are not modelled.
- Chat.ChatText and Chat.TranscribeAudio: the reply values in `short_messages` are strings or lists of strings. A `None` value, or a message without `content`, is not modelled.
- The speech-to-text repository the routes actually call (`backend/repository/voice.py`) is not part of this model. The transcribed text and file name are parameters of Chat.TranscribeAudio.
