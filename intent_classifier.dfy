/** The intent classifier node and the post-processing of its model's answer
    (backend/llm/node_intent_classifier.py). The prompt and the language-model call are not
    modelled: they are the oracle `classify`, which returns text or raises. */
module IntentClassifier {
  import opened Text
  import opened States

  /** The two intents the classifier may report. */
  datatype Label = GeneralQuestion | Fallback

  /** The label's text as it appears in the model's answer and in the state. */
  function Name(l: Label): (s: string)
    ensures s == "general_question" <==> l == GeneralQuestion
    ensures s == "fallback" <==> l == Fallback
  {
    match l
    case GeneralQuestion => "general_question"
    case Fallback => "fallback"
  }

  function Names(ls: seq<Label>): (r: seq<string>)
    ensures |r| == |ls| && forall k :: 0 <= k < |ls| ==> r[k] == Name(ls[k])
  {
    seq(|ls|, k requires 0 <= k < |ls| => Name(ls[k]))
  }

  /** `priority_order.index(l)`: "general_question" first. */
  function Priority(l: Label): nat {
    match l
    case GeneralQuestion => 0
    case Fallback => 1
  }

  /** `[item.strip() for item in llm_result.split(",")]`: never empty, because splitting
      always yields at least one piece. */
  function Pieces(llmResult: string): (pieces: seq<string>)
    ensures |pieces| >= 1
  {
    var parts := Split(llmResult, ',');
    seq(|parts|, k requires 0 <= k < |parts| => Strip(parts[k]))
  }

  /** The label a piece stands for: itself when it names a known label, "fallback" otherwise
      (the empty piece included). */
  function Validate(piece: string): (l: Label)
    ensures l == GeneralQuestion <==> piece == "general_question"
  {
    if piece != "general_question" && piece != "fallback" then Fallback
    else if piece == "general_question" then GeneralQuestion
    else Fallback
  }

  /** `sorted(labels, key=priority_order.index)` of a set of labels. */
  function SortByPriority(labels: set<Label>): (r: seq<Label>)
    ensures GeneralQuestion in r <==> GeneralQuestion in labels
    ensures Fallback in r <==> Fallback in labels
  {
    (if GeneralQuestion in labels then [GeneralQuestion] else [])
    + (if Fallback in labels then [Fallback] else [])
  }

  /** What the node promises of its result: no repetition, priority order, never empty. */
  predicate WellFormedIntent(labels: seq<Label>) {
    && |labels| > 0
    && (forall i, j :: 0 <= i < j < |labels| ==> labels[i] != labels[j])
    && (forall i, j :: 0 <= i < j < |labels| ==> Priority(labels[i]) < Priority(labels[j]))
  }

  /** Sorting a non-empty set of labels by priority gives a well-formed intent list. */
  lemma SortByPriorityWellFormed(labels: set<Label>)
    requires labels != {}
    ensures WellFormedIntent(SortByPriority(labels))
  {
    var l :| l in labels;
    assert l == GeneralQuestion || l == Fallback;
  }

  /** The validation loop: each piece becomes its label, in order. */
  method ValidatePieces(pieces: seq<string>) returns (updated: seq<Label>)
    ensures |updated| == |pieces|
    ensures forall k :: 0 <= k < |pieces| ==> updated[k] == Validate(pieces[k])
  {
    updated := [];
    for i := 0 to |pieces|
      invariant |updated| == i
      invariant forall k :: 0 <= k < i ==> updated[k] == Validate(pieces[k])
    {
      if pieces[i] != "general_question" && pieces[i] != "fallback" {
        updated := updated + [Fallback];
      } else {
        updated := updated + [if pieces[i] == "general_question" then GeneralQuestion else Fallback];
      }
    }
  }

  /** `list(set(labels))` sorted by priority, with the guard against an empty result. */
  method Deduplicate(updated: seq<Label>) returns (intent: seq<Label>)
    ensures WellFormedIntent(intent)
    ensures updated == [] ==> intent == [Fallback]
    ensures updated != [] ==> forall l :: l in intent <==> l in updated
  {
    var distinct := set l | l in updated;
    intent := SortByPriority(distinct);
    if intent == [] {
      intent := [Fallback];
    }
    if |updated| > 0 {
      assert updated[0] in distinct;
      SortByPriorityWellFormed(distinct);
      forall l ensures l in intent <==> l in distinct {
        assert l == GeneralQuestion || l == Fallback;
      }
    }
  }

  /** Validation, de-duplication and priority ordering of the stripped pieces of the model's answer. */
  method Normalise(pieces: seq<string>) returns (intent: seq<Label>)
    ensures WellFormedIntent(intent)
    ensures GeneralQuestion in intent <==> exists k :: 0 <= k < |pieces| && pieces[k] == "general_question"
    ensures Fallback in intent <==> pieces == [] || exists k :: 0 <= k < |pieces| && pieces[k] != "general_question"
  {
    var updated := ValidatePieces(pieces);
    intent := Deduplicate(updated);
    ghost var gq := exists k :: 0 <= k < |pieces| && pieces[k] == "general_question";
    if gq {
      var k :| 0 <= k < |pieces| && pieces[k] == "general_question";
      assert updated[k] == GeneralQuestion;
    }
    ghost var fb := exists k :: 0 <= k < |pieces| && pieces[k] != "general_question";
    if fb {
      var k :| 0 <= k < |pieces| && pieces[k] != "general_question";
      assert updated[k] == Fallback;
    }
  }

  /** In a list whose priorities strictly increase, entry `k` has priority at least `k`. */
  lemma {:induction false} PriorityAtLeastIndex(labels: seq<Label>, k: nat)
    requires forall i, j :: 0 <= i < j < |labels| ==> Priority(labels[i]) < Priority(labels[j])
    requires k < |labels|
    ensures Priority(labels[k]) >= k
  {
    if k > 0 {
      PriorityAtLeastIndex(labels, k - 1);
      assert Priority(labels[k - 1]) < Priority(labels[k]);
    }
  }

  /** A well-formed intent list is one of exactly three lists. */
  lemma WellFormedIntentShapes(labels: seq<Label>)
    requires WellFormedIntent(labels)
    ensures labels == [GeneralQuestion] || labels == [Fallback] || labels == [GeneralQuestion, Fallback]
  {
    PriorityAtLeastIndex(labels, |labels| - 1);
    assert |labels| <= 2;
    if |labels| == 2 {
      assert Priority(labels[0]) < Priority(labels[1]);
    } else {
      assert labels == [labels[0]];
    }
  }

  /** How the node ends: the updated state with the labels it holds, or the exception raised
      before the answer could be processed. */
  datatype ClassifierOutcome = Classified(state: SharedState, labels: seq<Label>) | Failed(error: string)

  /** The node `intent_classifier`. Reading `state["input_message"]` raises `KeyError` when
      the input is absent, and an exception raised by the model call leaves the node; neither
      is inside the `try`. Otherwise the returned state is the input state with its "intent" key
      set to the names of the normalised labels. The prompt and the model are the oracle
      `classify`, applied to the input message. */
  method IntentClassifierNode(state: SharedState, classify: string -> Run) returns (outcome: ClassifierOutcome)
    ensures state.inputMessage.None? ==> outcome == Failed("'input_message'")
    ensures state.inputMessage.Some? && classify(state.inputMessage.value).Raised? ==>
      outcome == Failed(classify(state.inputMessage.value).error)
    ensures state.inputMessage.Some? && classify(state.inputMessage.value).Output? ==>
      var pieces := Pieces(classify(state.inputMessage.value).text);
      && outcome.Classified?
      && WellFormedIntent(outcome.labels)
      && (GeneralQuestion in outcome.labels <==> "general_question" in pieces)
      && (Fallback in outcome.labels <==> exists k :: 0 <= k < |pieces| && pieces[k] != "general_question")
      && outcome.state == state.(intent := Some(Names(outcome.labels)))
  {
    if state.inputMessage.None? {
      return Failed("'input_message'");
    }
    var llmResult := classify(state.inputMessage.value);
    if llmResult.Raised? {
      return Failed(llmResult.error);
    }
    var pieces := Pieces(llmResult.text);
    var labels := Normalise(pieces);
    assert GeneralQuestion in labels <==> "general_question" in pieces;
    outcome := Classified(state.(intent := Some(Names(labels))), labels);
  }
}
