/** Ingestion of the game rules into the vector store (backend/collection_db.py). The JSONL
    file is given as the records it holds, or as absent when the file does not exist. */
module CollectionDb {
  import opened Text
  import opened States
  import opened Chroma

  const GameCollectionName: string := "TONGITS_RULES"

  /** One line of the rules file: `{"id", "question", "answer", "category"}`. */
  datatype Rule = Rule(id: string, question: string, answer: string, category: string)

  /** The stored text of a rule, `f"Q: {question} A: {answer}"`. */
  function RuleText(r: Rule): (t: string)
    ensures |t| == |r.question| + |r.answer| + 7
    ensures t[..3] == "Q: " && t[|t| - |r.answer|..] == r.answer
  {
    "Q: " + r.question + " A: " + r.answer
  }

  /** The entry a rule becomes: its id, its text with that text's embedding, and its category. */
  function RuleEntry(r: Rule, embed: string -> seq<real>): (e: Entry)
    ensures e.id == r.id && e.document == RuleText(r) && e.embedding == embed(RuleText(r))
    ensures e.metadata == map["category" := r.category]
  {
    Entry(r.id, RuleText(r), embed(RuleText(r)), map["category" := r.category])
  }

  /** The entries of a run of records, in file order. */
  function RuleEntries(rules: seq<Rule>, embed: string -> seq<real>): (entries: seq<Entry>)
    ensures |entries| == |rules|
    ensures forall k :: 0 <= k < |rules| ==> entries[k] == RuleEntry(rules[k], embed)
  {
    seq(|rules|, k requires 0 <= k < |rules| => RuleEntry(rules[k], embed))
  }

  /** How `initialize_chroma_collection` ends: it returns the collection, or raises
      `FileNotFoundError` after the collection was already created. */
  datatype InitOutcome = Ready | FileMissing

  /** The outcome the initialisation has on a store whose collections are `cols`. */
  function InitResult(cols: map<string, seq<Entry>>, file: Option<seq<Rule>>): InitOutcome {
    if GameCollectionName !in cols && file.None? then FileMissing else Ready
  }

  /** The collections after the initialisation: every other collection keeps its entries, an
      existing rules collection is left as it is, and a new one holds the file's rules in order,
      or nothing when there is no file. */
  function AfterInit(cols: map<string, seq<Entry>>, file: Option<seq<Rule>>, embed: string -> seq<real>): (r: map<string, seq<Entry>>)
    ensures GameCollectionName in r
    ensures forall name :: name != GameCollectionName ==> (name in r <==> name in cols)
    ensures forall name :: name in cols && name != GameCollectionName ==> r[name] == cols[name]
    ensures GameCollectionName in cols ==> r[GameCollectionName] == cols[GameCollectionName]
    ensures GameCollectionName !in cols && file.None? ==> r[GameCollectionName] == []
    ensures GameCollectionName !in cols && file.Some? ==>
      && |r[GameCollectionName]| == |file.value|
      && forall k :: 0 <= k < |file.value| ==> r[GameCollectionName][k] == RuleEntry(file.value[k], embed)
  {
    if GameCollectionName in cols then cols
    else if file.None? then cols[GameCollectionName := []]
    else cols[GameCollectionName := RuleEntries(file.value, embed)]
  }

  /** `initialize_chroma_collection`: an existing rules collection is returned as it is; otherwise
      the collection is created and then, if the file exists, filled one record at a time. */
  method InitializeChromaCollection(store: Store, file: Option<seq<Rule>>, embed: string -> seq<real>)
    returns (outcome: InitOutcome)
    modifies store
    ensures outcome == InitResult(old(store.collections), file)
    ensures store.collections == AfterInit(old(store.collections), file, embed)
  {
    var found := store.GetCollection(GameCollectionName);
    if found {
      return Ready;
    }
    var created := store.CreateCollection(GameCollectionName);
    if file.None? {
      return FileMissing;
    }
    var docs := file.value;
    for i := 0 to |docs|
      invariant store.collections == old(store.collections)[GameCollectionName := RuleEntries(docs[..i], embed)]
    {
      var d := docs[i];
      var text := "Q: " + d.question + " A: " + d.answer;
      var embedding := embed(text);
      store.Add(GameCollectionName, [Entry(d.id, text, embedding, map["category" := d.category])]);
      assert RuleEntries(docs[..i + 1], embed) == RuleEntries(docs[..i], embed) + [RuleEntry(d, embed)];
    }
    assert docs[..|docs|] == docs;
    outcome := Ready;
  }

  /** Initialising twice adds nothing the second time, and the second call succeeds even when
      the first one failed: a missing file leaves an empty collection behind. */
  lemma InitialiseTwice(cols: map<string, seq<Entry>>, first: Option<seq<Rule>>, second: Option<seq<Rule>>,
                        embed: string -> seq<real>)
    ensures var after := AfterInit(cols, first, embed);
      && InitResult(after, second) == Ready
      && AfterInit(after, second, embed) == after
      && (GameCollectionName !in cols && first.None? ==> after[GameCollectionName] == [])
  {
  }

  /** The process-wide cache `collection` of `get_collection_game_rules`, holding the name of
      the collection once one was returned. */
  class RulesCache {
    var collection: Option<string>

    constructor ()
      ensures collection == None
    {
      collection := None;
    }

    /** `get_collection_game_rules`: initialises only while nothing is cached; a raised
        `FileNotFoundError` leaves the cache empty. */
    method GetCollectionGameRules(store: Store, file: Option<seq<Rule>>, embed: string -> seq<real>)
      returns (outcome: InitOutcome)
      modifies this, store
      ensures old(collection).Some? ==>
        outcome == Ready && collection == old(collection) && store.collections == old(store.collections)
      ensures old(collection).None? ==>
        && outcome == InitResult(old(store.collections), file)
        && store.collections == AfterInit(old(store.collections), file, embed)
        && collection == (if outcome == Ready then Some(GameCollectionName) else None)
    {
      if collection.None? {
        outcome := InitializeChromaCollection(store, file, embed);
        if outcome == Ready {
          collection := Some(GameCollectionName);
        }
      } else {
        outcome := Ready;
      }
    }
  }

  /** The text after `"Q: "` split at the first `" A: "`: the inverse of `RuleText` below. */
  function SplitAtFirst(s: string, sep: string): (r: Option<(string, string)>)
    requires sep != []
    ensures r.Some? ==> s == r.value.0 + sep + r.value.1
    decreases |s|
  {
    if |s| < |sep| then None
    else if s[..|sep|] == sep then Some(([], s[|sep|..]))
    else
      match SplitAtFirst(s[1..], sep)
      case None => None
      case Some(p) => Some(([s[0]] + p.0, p.1))
  }

  /** The question and answer read back from a stored rule text. */
  function ParseRuleText(t: string): Option<(string, string)> {
    if |t| >= 3 && t[..3] == "Q: " then SplitAtFirst(t[3..], " A: ") else None
  }

  /** No `" A: "` starts inside the question: the first one in `q + " A: "` is the appended one. */
  predicate SeparatorAfter(q: string) {
    forall i :: 0 <= i < |q| ==> !OccursAt(q + " A: ", " A: ", i)
  }

  /** A question without a colon cannot hold the start of a separator. */
  lemma ColonFreeSeparatorAfter(q: string)
    requires ':' !in q
    ensures SeparatorAfter(q)
  {
    forall i | 0 <= i < |q| ensures !OccursAt(q + " A: ", " A: ", i) {
      var t := q + " A: ";
      if i + 2 < |q| {
        assert t[i..i + 4][2] == q[i + 2];
      } else {
        assert t[i..i + 4][2] == t[i + 2];
      }
    }
  }

  /** A text starting with a question and the separator splits right after the question,
      provided no separator starts inside it. */
  lemma {:induction false} SplitAtQuestion(q: string, rest: string)
    requires SeparatorAfter(q)
    ensures SplitAtFirst(q + " A: " + rest, " A: ") == Some((q, rest))
    decreases |q|
  {
    var s := q + " A: " + rest;
    if q == [] {
      assert s[..4] == " A: " && s[4..] == rest;
    } else {
      var t := q + " A: ";
      assert !OccursAt(t, " A: ", 0);
      assert s[..4] == t[0..4];
      var t1 := q[1..] + " A: ";
      assert t1 == t[1..];
      forall i | 0 <= i < |q[1..]| ensures !OccursAt(t1, " A: ", i) {
        assert !OccursAt(t, " A: ", i + 1);
        assert t1[i..i + 4] == t[i + 1..i + 5];
      }
      assert s[1..] == q[1..] + " A: " + rest;
      SplitAtQuestion(q[1..], rest);
      assert [q[0]] + q[1..] == q;
    }
  }

  /** The stored text loses nothing: question and answer can be read back from it whenever no
      separator starts inside the question, in particular whenever the question has no colon. */
  lemma RuleTextRoundTrip(r: Rule)
    requires SeparatorAfter(r.question)
    ensures ParseRuleText(RuleText(r)) == Some((r.question, r.answer))
  {
    var t := RuleText(r);
    assert t[3..] == r.question + " A: " + r.answer;
    SplitAtQuestion(r.question, r.answer);
  }
}
