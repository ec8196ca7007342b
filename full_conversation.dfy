/** The node `save_full_conversation` (backend/llm/node_save_full_conversation.py): every turn
    of a conversation is written to a collection named after the conversation's thread id. */
module FullConversation {
  import opened Text
  import opened States
  import opened Chroma

  /** The values drawn from the clock and from `uuid4()` for one record: the ISO timestamp,
      the numeric timestamp as printed, and the uuid as printed. */
  datatype Stamp = Stamp(iso: string, epoch: string, uuid: string)

  /** `str(uuid.uuid4())` is always 36 characters long. */
  const UuidLength: nat := 36

  /** One record of the batch, before embedding: the document, its metadata and its id. */
  datatype Row = Row(document: string, metadata: map<string, string>, id: string)

  /** The text stored for a message: its `content`, or `str(message)` for anything else. */
  function ContentOf(m: Item): string {
    match m
    case Message(_, content) => content
    case Other(repr) => repr
  }

  /** `getattr(message, 'type', 'unknown')` */
  function TypeOf(m: Item): string {
    match m
    case Message(kind, _) => kind
    case Other(_) => "unknown"
  }

  function Metadata(threadId: string, messageType: string, s: Stamp): (m: map<string, string>)
    ensures "thread_id" in m && "message_type" in m && "timestamp" in m
    ensures m["thread_id"] == threadId && m["message_type"] == messageType && m["timestamp"] == s.iso
  {
    map["thread_id" := threadId, "message_type" := messageType, "timestamp" := s.iso]
  }

  /** `f"{thread_id}_{timestamp}_{uuid4()}"` */
  function RecordId(threadId: string, s: Stamp): (id: string)
    ensures |id| >= |threadId| + 1 && id[..|threadId| + 1] == threadId + "_"
    ensures |id| >= |s.uuid| && id[|id| - |s.uuid|..] == s.uuid
  {
    threadId + "_" + s.epoch + "_" + s.uuid
  }

  function InputRow(threadId: string, input: string, s: Stamp): Row {
    Row(input, Metadata(threadId, "user", s), RecordId(threadId, s))
  }

  function MessageRow(threadId: string, m: Item, s: Stamp): Row {
    Row(ContentOf(m), Metadata(threadId, TypeOf(m), s), RecordId(threadId, s))
  }

  /** The rows the loop adds for `messages`, in order, blank messages skipped. Message `k`
      takes its clock and uuid values from slot `k + 1` of `stamps`; slot 0 is the input's. */
  function Rows(threadId: string, messages: seq<Item>, stamps: nat -> Stamp): (rows: seq<Row>)
    ensures |rows| <= |messages|
    decreases |messages|
  {
    if messages == [] then []
    else
      var n := |messages| - 1;
      var m := messages[n];
      Rows(threadId, messages[..n], stamps) + RowOf(threadId, m, stamps(n + 1))
  }

  /** The rows one message contributes: none when it is blank, else one. */
  function RowOf(threadId: string, m: Item, s: Stamp): (rows: seq<Row>)
    ensures rows == [] <==> AllSpace(ContentOf(m))
    ensures |rows| <= 1
    ensures forall row :: row in rows ==>
      row.document == ContentOf(m) && row.id == RecordId(threadId, s) && row.metadata == Metadata(threadId, TypeOf(m), s)
  {
    if AllSpace(ContentOf(m)) then [] else [MessageRow(threadId, m, s)]
  }

  lemma RowsSnoc(threadId: string, messages: seq<Item>, i: nat, stamps: nat -> Stamp)
    requires i < |messages|
    ensures Rows(threadId, messages[..i + 1], stamps) == Rows(threadId, messages[..i], stamps) + RowOf(threadId, messages[i], stamps(i + 1))
  {
    assert messages[..i + 1][..i] == messages[..i];
  }

  /** The whole batch: the input first, whatever it holds, then the rows of the messages. */
  function Batch(threadId: string, input: string, messages: seq<Item>, stamps: nat -> Stamp): (batch: seq<Row>)
    ensures |batch| == 1 + |Rows(threadId, messages, stamps)|
  {
    [InputRow(threadId, input, stamps(0))] + Rows(threadId, messages, stamps)
  }

  /** What is handed to `collection.add`: each row with the embedding of its document. */
  function Entries(batch: seq<Row>, embed: string -> seq<real>): (entries: seq<Entry>)
    ensures |entries| == |batch|
    ensures forall k :: 0 <= k < |batch| ==>
      entries[k] == Entry(batch[k].id, batch[k].document, embed(batch[k].document), batch[k].metadata)
  {
    seq(|batch|, k requires 0 <= k < |batch| => Entry(batch[k].id, batch[k].document, embed(batch[k].document), batch[k].metadata))
  }

  /** The three parallel lists of a batch. */
  function Documents(rows: seq<Row>): (docs: seq<string>)
    ensures |docs| == |rows| && forall k :: 0 <= k < |rows| ==> docs[k] == rows[k].document
  {
    seq(|rows|, k requires 0 <= k < |rows| => rows[k].document)
  }

  function Metadatas(rows: seq<Row>): (metas: seq<map<string, string>>)
    ensures |metas| == |rows| && forall k :: 0 <= k < |rows| ==> metas[k] == rows[k].metadata
  {
    seq(|rows|, k requires 0 <= k < |rows| => rows[k].metadata)
  }

  function Ids(rows: seq<Row>): (ids: seq<string>)
    ensures |ids| == |rows| && forall k :: 0 <= k < |rows| ==> ids[k] == rows[k].id
  {
    seq(|rows|, k requires 0 <= k < |rows| => rows[k].id)
  }

  lemma ProjectionsAppend(rows: seq<Row>, more: seq<Row>)
    ensures Documents(rows + more) == Documents(rows) + Documents(more)
    ensures Metadatas(rows + more) == Metadatas(rows) + Metadatas(more)
    ensures Ids(rows + more) == Ids(rows) + Ids(more)
  {
  }

  /** The rows one message contributes, projected: nothing for a blank message, else its content,
      metadata and id. */
  lemma RowOfProjections(threadId: string, m: Item, s: Stamp)
    ensures AllSpace(ContentOf(m)) ==> RowOf(threadId, m, s) == []
    ensures !AllSpace(ContentOf(m)) ==>
      && Documents(RowOf(threadId, m, s)) == [ContentOf(m)]
      && Metadatas(RowOf(threadId, m, s)) == [Metadata(threadId, TypeOf(m), s)]
      && Ids(RowOf(threadId, m, s)) == [RecordId(threadId, s)]
  {
  }

  /** One turn of the batch loop: a blank message leaves the three lists as they are, any
      other extends each by one element. */
  lemma BatchStep(threadId: string, input: string, messages: seq<Item>, i: nat, stamps: nat -> Stamp)
    requires i < |messages|
    ensures var before := Batch(threadId, input, messages[..i], stamps);
      var after := Batch(threadId, input, messages[..i + 1], stamps);
      var m := messages[i];
      && (AllSpace(ContentOf(m)) ==> after == before)
      && (!AllSpace(ContentOf(m)) ==>
            && Documents(after) == Documents(before) + [ContentOf(m)]
            && Metadatas(after) == Metadatas(before) + [Metadata(threadId, TypeOf(m), stamps(i + 1))]
            && Ids(after) == Ids(before) + [RecordId(threadId, stamps(i + 1))])
  {
    var before := Batch(threadId, input, messages[..i], stamps);
    var added := RowOf(threadId, messages[i], stamps(i + 1));
    RowsSnoc(threadId, messages, i, stamps);
    assert Batch(threadId, input, messages[..i + 1], stamps) == before + added;
    ProjectionsAppend(before, added);
    RowOfProjections(threadId, messages[i], stamps(i + 1));
  }

  /** The batch construction: three parallel lists filled by one loop that skips blank messages. */
  method BuildBatch(threadId: string, input: string, messages: seq<Item>, stamps: nat -> Stamp)
    returns (documents: seq<string>, metadatas: seq<map<string, string>>, ids: seq<string>)
    ensures documents == Documents(Batch(threadId, input, messages, stamps))
    ensures metadatas == Metadatas(Batch(threadId, input, messages, stamps))
    ensures ids == Ids(Batch(threadId, input, messages, stamps))
  {
    var first := stamps(0);
    documents := [input];
    metadatas := [Metadata(threadId, "user", first)];
    ids := [RecordId(threadId, first)];
    assert messages[..0] == [];
    for i := 0 to |messages|
      invariant documents == Documents(Batch(threadId, input, messages[..i], stamps))
      invariant metadatas == Metadatas(Batch(threadId, input, messages[..i], stamps))
      invariant ids == Ids(Batch(threadId, input, messages[..i], stamps))
    {
      var message := messages[i];
      var content := ContentOf(message);
      BatchStep(threadId, input, messages, i, stamps);
      var blank := IsBlank(content);
      if blank {
        continue;
      }
      var s := stamps(i + 1);
      documents := documents + [content];
      metadatas := metadatas + [Metadata(threadId, TypeOf(message), s)];
      ids := ids + [RecordId(threadId, s)];
    }
    assert messages[..|messages|] == messages;
  }

  /** How the node ends: it returns the state unchanged when there are no messages, returns
      nothing after saving, or raises `KeyError` when messages exist but the input does not. */
  datatype SaveOutcome = ReturnedState(state: SharedState) | Saved | MissingInput

  /** The node. The thread's collection is fetched, and created if the fetch fails, before
      anything else, so it exists afterwards even when nothing is saved. */
  method SaveFullConversation(store: Store, state: SharedState, threadId: string,
                              stamps: nat -> Stamp, embed: string -> seq<real>)
    returns (outcome: SaveOutcome)
    modifies store
    ensures var messages := state.messages.GetOr([]);
      && (messages == [] ==>
            outcome == ReturnedState(state) && store.collections == WithCollection(old(store.collections), threadId))
      && (messages != [] && state.inputMessage.None? ==>
            outcome == MissingInput && store.collections == WithCollection(old(store.collections), threadId))
      && (messages != [] && state.inputMessage.Some? ==>
            var cols := WithCollection(old(store.collections), threadId);
            && outcome == Saved
            && store.collections == cols[threadId := cols[threadId] + Entries(Batch(threadId, state.inputMessage.value, messages, stamps), embed)])
  {
    var found := store.GetCollection(threadId);
    if !found {
      var created := store.CreateCollection(threadId);
    }
    var messages := state.messages.GetOr([]);
    if messages == [] {
      return ReturnedState(state);
    }
    if state.inputMessage.None? {
      return MissingInput;
    }
    var documents, metadatas, ids := BuildBatch(threadId, state.inputMessage.value, messages, stamps);
    var embeddings := seq(|documents|, k requires 0 <= k < |documents| => embed(documents[k]));
    var entries := seq(|documents|, k requires 0 <= k < |documents| => Entry(ids[k], documents[k], embeddings[k], metadatas[k]));
    assert entries == Entries(Batch(threadId, state.inputMessage.value, messages, stamps), embed);
    store.Add(threadId, entries);
    outcome := Saved;
  }

  /** Every stored message row has a non-blank document and carries the thread id. */
  lemma {:induction false} RowsNonBlank(threadId: string, messages: seq<Item>, stamps: nat -> Stamp)
    ensures forall k :: 0 <= k < |Rows(threadId, messages, stamps)| ==>
      && !AllSpace(Rows(threadId, messages, stamps)[k].document)
      && "thread_id" in Rows(threadId, messages, stamps)[k].metadata
      && Rows(threadId, messages, stamps)[k].metadata["thread_id"] == threadId
    decreases |messages|
  {
    if messages != [] {
      var n := |messages| - 1;
      RowsNonBlank(threadId, messages[..n], stamps);
    }
  }

  /** Reference definition of what survives: the contents of the non-blank messages, in order. */
  function NonBlankContents(messages: seq<Item>): seq<string> {
    if messages == [] then []
    else (if AllSpace(ContentOf(messages[0])) then [] else [ContentOf(messages[0])]) + NonBlankContents(messages[1..])
  }

  lemma {:induction false} NonBlankContentsSnoc(messages: seq<Item>, m: Item)
    ensures NonBlankContents(messages + [m]) == NonBlankContents(messages) + (if AllSpace(ContentOf(m)) then [] else [ContentOf(m)])
    decreases |messages|
  {
    if messages == [] {
      assert [m][1..] == [];
    } else {
      var head := if AllSpace(ContentOf(messages[0])) then [] else [ContentOf(messages[0])];
      var last := if AllSpace(ContentOf(m)) then [] else [ContentOf(m)];
      assert (messages + [m])[0] == messages[0];
      assert (messages + [m])[1..] == messages[1..] + [m];
      assert NonBlankContents(messages + [m]) == head + NonBlankContents(messages[1..] + [m]);
      NonBlankContentsSnoc(messages[1..], m);
      assert NonBlankContents(messages) == head + NonBlankContents(messages[1..]);
      assert head + (NonBlankContents(messages[1..]) + last) == (head + NonBlankContents(messages[1..])) + last;
    }
  }

  /** The stored documents after the input are exactly the non-blank message contents, in
      their original order; so the batch holds one entry plus one per non-blank message. */
  lemma {:induction false} RowsAreNonBlankContents(threadId: string, messages: seq<Item>, stamps: nat -> Stamp)
    ensures Documents(Rows(threadId, messages, stamps)) == NonBlankContents(messages)
    decreases |messages|
  {
    if messages != [] {
      var n := |messages| - 1;
      var prefix := messages[..n];
      var m := messages[n];
      var added := RowOf(threadId, m, stamps(n + 1));
      RowsAreNonBlankContents(threadId, prefix, stamps);
      NonBlankContentsSnoc(prefix, m);
      assert prefix + [m] == messages;
      assert Rows(threadId, messages, stamps) == Rows(threadId, prefix, stamps) + added;
      ProjectionsAppend(Rows(threadId, prefix, stamps), added);
      RowOfProjections(threadId, m, stamps(n + 1));
    }
  }

  /** The batch holds one entry for the input plus one per non-blank message. */
  lemma BatchSize(threadId: string, input: string, messages: seq<Item>, stamps: nat -> Stamp)
    ensures |Batch(threadId, input, messages, stamps)| == 1 + |NonBlankContents(messages)|
  {
    RowsAreNonBlankContents(threadId, messages, stamps);
  }

  /** A record id ends with the uuid, so two ids of one thread built from uuids of the same
      length are equal only when the uuids are. */
  lemma RecordIdSuffix(threadId: string, a: Stamp, b: Stamp)
    requires |a.uuid| == |b.uuid|
    requires RecordId(threadId, a) == RecordId(threadId, b)
    ensures a.uuid == b.uuid
  {
    var x := RecordId(threadId, a);
    assert x[|x| - |a.uuid|..] == a.uuid;
    assert x[|x| - |b.uuid|..] == b.uuid;
  }

  /** The uuids drawn for slots `0..bound` all have the printed length and are pairwise distinct. */
  predicate DistinctUuids(stamps: nat -> Stamp, bound: nat) {
    && (forall i :: 0 <= i <= bound ==> |stamps(i).uuid| == UuidLength)
    && (forall i, j :: 0 <= i <= bound && 0 <= j <= bound && i != j ==> stamps(i).uuid != stamps(j).uuid)
  }

  /** A message row never reuses the id built from the stamp of a slot outside 1..|messages|. */
  lemma {:induction false} RowsAvoidSlot(threadId: string, messages: seq<Item>, stamps: nat -> Stamp, t: nat, bound: nat)
    requires DistinctUuids(stamps, bound)
    requires |messages| <= bound && t <= bound
    requires t == 0 || t > |messages|
    ensures forall k :: 0 <= k < |Rows(threadId, messages, stamps)| ==>
      Rows(threadId, messages, stamps)[k].id != RecordId(threadId, stamps(t))
    decreases |messages|
  {
    if messages != [] {
      var n := |messages| - 1;
      var prefix := Rows(threadId, messages[..n], stamps);
      var rows := Rows(threadId, messages, stamps);
      RowsAvoidSlot(threadId, messages[..n], stamps, t, bound);
      forall k | 0 <= k < |rows| ensures rows[k].id != RecordId(threadId, stamps(t)) {
        if k < |prefix| {
          assert rows[k] == prefix[k];
        } else {
          assert rows[k].id == RecordId(threadId, stamps(n + 1));
          if rows[k].id == RecordId(threadId, stamps(t)) {
            RecordIdSuffix(threadId, stamps(n + 1), stamps(t));
          }
        }
      }
    }
  }

  /** Distinct uuids of equal length give distinct ids within the message rows. */
  lemma {:induction false} RowsIdsDistinct(threadId: string, messages: seq<Item>, stamps: nat -> Stamp, bound: nat)
    requires DistinctUuids(stamps, bound)
    requires |messages| <= bound
    ensures forall i, j :: 0 <= i < j < |Rows(threadId, messages, stamps)| ==>
      Rows(threadId, messages, stamps)[i].id != Rows(threadId, messages, stamps)[j].id
    decreases |messages|
  {
    if messages != [] {
      var n := |messages| - 1;
      var prefix := Rows(threadId, messages[..n], stamps);
      RowsIdsDistinct(threadId, messages[..n], stamps, bound);
      RowsAvoidSlot(threadId, messages[..n], stamps, n + 1, bound);
      var rows := Rows(threadId, messages, stamps);
      forall i, j | 0 <= i < j < |rows| ensures rows[i].id != rows[j].id {
        assert rows[i] == prefix[i];
        if j < |prefix| {
          assert rows[j] == prefix[j];
        } else {
          assert rows[j].id == RecordId(threadId, stamps(n + 1));
        }
      }
    }
  }

  /** Every id in a batch is distinct, the input's included, when the uuids drawn for its slots
      `0..|messages|` are. */
  lemma BatchIdsDistinct(threadId: string, input: string, messages: seq<Item>, stamps: nat -> Stamp)
    requires DistinctUuids(stamps, |messages|)
    ensures forall i, j :: 0 <= i < j < |Batch(threadId, input, messages, stamps)| ==>
      Batch(threadId, input, messages, stamps)[i].id != Batch(threadId, input, messages, stamps)[j].id
  {
    var batch := Batch(threadId, input, messages, stamps);
    var rows := Rows(threadId, messages, stamps);
    RowsIdsDistinct(threadId, messages, stamps, |messages|);
    RowsAvoidSlot(threadId, messages, stamps, 0, |messages|);
    forall i, j | 0 <= i < j < |batch| ensures batch[i].id != batch[j].id {
      assert batch[j] == rows[j - 1];
      if i > 0 {
        assert batch[i] == rows[i - 1];
      }
    }
  }
}
