/**
 * The text-generation client (`generateText` from the `ai` package, backed by
 * Groq) seen from the core: a prompt goes in, and either generated text comes
 * back or something is thrown. The client itself is not modelled; a
 * `Generator` is any function from prompts to replies.
 */
module Generation {
  import opened Wrappers
  import opened Strings

  /**
   * A prompt, reduced to the values it embeds. The fixed wording around
   * them is not modelled.
   */
  datatype Prompt =
    | SummarizePrompt(length: string, format: string, text: string)
    | TranslatePrompt(targetLanguage: string, text: string)
    | RewritePrompt(style: string, text: string)
      // the keyword clause, or None for the generic "most important information" one
    | ExtractPrompt(focus: Option<string>, text: string)
      // the allow-list, which the prompt lists joined with ", ", and the user's instruction
    | SynthesisPrompt(languages: seq<string>, instruction: string)

  /** What a failing call throws: an `Error` (possibly a `SyntaxError`) or some other value. */
  datatype Thrown = ErrorObject(message: string, isSyntaxError: bool) | NonError

  /** The outcome of one call of the client. */
  datatype Reply = Generated(text: string) | Threw(thrown: Thrown)

  type Generator = Prompt -> Reply

  /** `error instanceof Error ? error.message : 'Unknown error'`. */
  function MessageOf(t: Thrown): string {
    match t
    case ErrorObject(message, _) => message
    case NonError => "Unknown error"
  }

  /**
   * The message thrown when the client returns blank text. It is written in
   * pieces that end on a space, so that lemmas can look for substrings piece
   * by piece; the text is the one the service throws.
   */
  const EmptyResponseMessage: string :=
    "AI service " + "returned " + "empty " + "response. " + "Please check " + "your API key and try again."

  /** The opening shared by the service's own error messages does not mention a restriction. */
  lemma ServiceReturnedNotRestricted()
    ensures !Contains("AI service " + "returned ", "restricted")
  {
    NotContainsWithout("AI service ", "restricted", 'd');
    NotContainsShort("returned ", "restricted");
    ContainsSplit("AI service ", "returned ", "restricted");
  }

  lemma EmptyResponsePiecesNotRestricted()
    ensures !Contains("empty ", "restricted") && !Contains("response. ", "restricted")
    ensures !Contains("Please check ", "restricted") && !Contains("your API key and try again.", "restricted")
  {
    NotContainsShort("empty ", "restricted");
    NotContainsWithout("response. ", "restricted", 'c');
    NotContainsWithout("Please check ", "restricted", 'r');
    NotContainsWithout("your API key and try again.", "restricted", 'c');
  }

  /** The empty-response message does not mention a restriction. */
  lemma EmptyResponseNotRestricted()
    ensures !Contains(EmptyResponseMessage, "restricted")
  {
    var p1, p2, p3, p4, p5, p6 := "AI service ", "returned ", "empty ", "response. ", "Please check ",
                                  "your API key and try again.";
    ServiceReturnedNotRestricted();
    EmptyResponsePiecesNotRestricted();
    ContainsSplitAfter(p1, p2, p3, "restricted");
    ContainsSplitAfter(p1 + p2, p3, p4, "restricted");
    ContainsSplitAfter(p1 + p2 + p3, p4, p5, "restricted");
    ContainsSplitAfter(p1 + p2 + p3 + p4, p5, p6, "restricted");
  }
}
