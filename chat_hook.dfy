/** The state of the chat hook (`useComplianceChat`): the `isLoading` flag
    and `sendMessage`, which asks the external model for an answer and turns
    it into an assistant message carrying the citations found in it.

    The model call, `crypto.randomUUID()` and the clock are outside the
    model: their results arrive as parameters (`LlmOutcome`, `id`,
    `timestamp`). */
module ChatHook {
  import opened Seqs
  import opened Types
  import opened ComplianceChat

  /** What the awaited model call produced: its text, or a thrown error. */
  datatype LlmOutcome = Ok(text: string) | Err

  /** The fixed reply sent when the model call fails. */
  const Apology: string :=
    "I apologize, but I'm having trouble accessing my knowledge base right now. Please try again in a moment, or browse our regulatory standards directly for the information you need."

  /** The assistant message `sendMessage` resolves to for a given model outcome:
      on success the model's text with the citations extracted from it (an
      empty list when there are none), on failure the apology without any
      citations property. */
  function AssistantReply(outcome: LlmOutcome, id: string, timestamp: string): (m: ChatMessage)
    ensures m.role == Assistant && m.id == id && m.timestamp == timestamp
    ensures outcome.Ok? ==> m.content == outcome.text && m.citations == Some(ExtractCitations(outcome.text))
    ensures outcome.Err? ==> m.content == Apology && m.citations.None?
  {
    match outcome
    case Ok(text) => ChatMessage(id, Assistant, text, Some(ExtractCitations(text)), timestamp)
    case Err => ChatMessage(id, Assistant, Apology, None, timestamp)
  }

  /** Whatever the outcome, a reply's citations are exactly those its own
      content yields, and each names a catalog section with its title. */
  lemma ReplyCitesItsContent(outcome: LlmOutcome, id: string, timestamp: string)
    ensures var m := AssistantReply(outcome, id, timestamp);
      m.citations.Some? ==>
        && m.citations.value == ExtractCitations(m.content)
        && forall k :: 0 <= k < |m.citations.value| ==>
             CitesCatalog(FdaRef, m.citations.value[k]) || CitesCatalog(IsoRef, m.citations.value[k]) || CitesCatalog(MdrRef, m.citations.value[k])
  {
    var m := AssistantReply(outcome, id, timestamp);
    if m.citations.Some? {
      var cs := ExtractCitations(m.content);
      assert m.citations.value == cs;
    }
  }

  /** A reply carries a citations list exactly when the model call succeeded. */
  lemma ReplyHasCitationsIffOk(outcome: LlmOutcome, id: string, timestamp: string)
    ensures AssistantReply(outcome, id, timestamp).citations.Some? <==> outcome.Ok?
  {
  }

  /** The hook's state. `loadingHistory` records, in order, every value the
      hook has set `isLoading` to. */
  class ChatSession {
    var isLoading: bool
    ghost var loadingHistory: seq<bool>

    /** `useState(false)`. */
    constructor()
      ensures !isLoading && loadingHistory == []
    {
      isLoading := false;
      loadingHistory := [];
    }

    /** `sendMessage`: raise the loading flag, await the model, build the
        reply, and lower the flag again on both paths (the `finally` block).
        The user's `message` only feeds the prompt, which is not modelled. */
    method SendMessage(message: string, outcome: LlmOutcome, id: string, timestamp: string) returns (reply: ChatMessage)
      modifies this
      ensures reply == AssistantReply(outcome, id, timestamp)
      ensures !isLoading
      ensures loadingHistory == old(loadingHistory) + [true, false]
    {
      isLoading := true;
      loadingHistory := loadingHistory + [true];
      match outcome {
        case Ok(text) =>
          var citations := ExtractCitations(text);
          reply := ChatMessage(id, Assistant, text, Some(citations), timestamp);
        case Err =>
          reply := ChatMessage(id, Assistant, Apology, None, timestamp);
      }
      isLoading := false;
      loadingHistory := loadingHistory + [false];
    }
  }
}
