/**
 * One pipeline step of the AI service (backend/src/services/aiService.ts):
 * the dispatcher `executeStep` and the four handlers `summarize`,
 * `translate`, `rewrite` and `extract`. Each handler fills its config
 * defaults, builds one prompt, calls the generator once and refuses blank
 * text; `translate` first refuses a language outside the allow-list.
 */
module StepExecutor {
  import opened Wrappers
  import opened Strings
  import opened Generation
  import Languages

  /** The service's `StepConfig`: every field may be absent. */
  datatype StepConfig = StepConfig(
    length: Option<string>,
    format: Option<string>,
    targetLanguage: Option<string>,
    style: Option<string>,
    keywords: Option<seq<string>>)

  /** The service's `PipelineStep`; its type is the string the request carried. */
  datatype Step = Step(id: string, kind: string, config: StepConfig)

  /** A config with every field absent. */
  const NoConfig := StepConfig(None, None, None, None, None)

  predicate IsKnownType(kind: string) {
    kind == "summarize" || kind == "translate" || kind == "rewrite" || kind == "extract"
  }

  /** The handler name that prefixes a handler's caught errors. */
  function HandlerName(kind: string): string
    requires IsKnownType(kind)
  {
    if kind == "summarize" then "Summarization"
    else if kind == "translate" then "Translation"
    else if kind == "rewrite" then "Rewrite"
    else "Extraction"
  }

  /**
   * The `try`/`catch` around a handler's generation call: blank text is
   * refused, anything thrown is re-thrown with the handler's prefix, and
   * non-blank text is returned exactly as generated.
   */
  function Guard(handler: string, reply: Reply): (r: Result<string, string>)
    ensures r.Ok? <==> reply.Generated? && !IsBlank(reply.text)
    ensures r.Ok? ==> r.value == reply.text
    ensures r.Err? ==> StartsWith(r.error, handler + " failed: ")
  {
    match reply
    case Threw(t) => Err(handler + " failed: " + MessageOf(t))
    case Generated(text) =>
      if IsBlank(text) then Err(handler + " failed: " + EmptyResponseMessage) else Ok(text)
  }

  /** `summarize`'s prompt: length defaults to medium, format to paragraph. */
  function SummarizeRequest(input: string, config: StepConfig): Prompt {
    SummarizePrompt(config.length.GetOr("medium"), config.format.GetOr("paragraph"), input)
  }

  /** `translate`'s resolved target language: Spanish when absent. */
  function TargetLanguage(config: StepConfig): string {
    config.targetLanguage.GetOr("Spanish")
  }

  function TranslateRequest(input: string, config: StepConfig): Prompt {
    TranslatePrompt(TargetLanguage(config), input)
  }

  /** `rewrite`'s prompt: only `style` is read, defaulting to professional. */
  function RewriteRequest(input: string, config: StepConfig): Prompt {
    RewritePrompt(config.style.GetOr("professional"), input)
  }

  /** The keyword clause of `extract`: the keywords joined with ", ", or none for an empty list. */
  function KeywordFocus(keywords: seq<string>): Option<string> {
    if |keywords| > 0 then Some(Join(keywords, ", ")) else None
  }

  /** `extract`'s prompt: only `keywords` is read, defaulting to the empty list. */
  function ExtractRequest(input: string, config: StepConfig): Prompt {
    ExtractPrompt(KeywordFocus(config.keywords.GetOr([])), input)
  }

  function Summarize(input: string, config: StepConfig, gen: Generator): Result<string, string> {
    Guard("Summarization", gen(SummarizeRequest(input, config)))
  }

  /** The allow-list check happens before, and outside, the guarded call. */
  function Translate(input: string, config: StepConfig, gen: Generator): Result<string, string> {
    var language := TargetLanguage(config);
    if !Languages.ValidateLanguage(language) then Err(Languages.RestrictedMessage(language))
    else Guard("Translation", gen(TranslateRequest(input, config)))
  }

  function Rewrite(input: string, config: StepConfig, gen: Generator): Result<string, string> {
    Guard("Rewrite", gen(RewriteRequest(input, config)))
  }

  function Extract(input: string, config: StepConfig, gen: Generator): Result<string, string> {
    Guard("Extraction", gen(ExtractRequest(input, config)))
  }

  /** `executeStep`: dispatch on the type; an unrecognised type passes its input through. */
  function ExecuteStep(step: Step, input: string, gen: Generator): (r: Result<string, string>)
    ensures !IsKnownType(step.kind) ==> r == Ok(input)
    ensures IsKnownType(step.kind) && r.Ok? ==> !IsBlank(r.value)
  {
    match step.kind
    case "summarize" => Summarize(input, step.config, gen)
    case "translate" => Translate(input, step.config, gen)
    case "rewrite" => Rewrite(input, step.config, gen)
    case "extract" => Extract(input, step.config, gen)
    case _ => Ok(input)
  }

  /** The prompt a step of a known type sends for a given input. */
  function PromptFor(step: Step, input: string): Prompt
    requires IsKnownType(step.kind)
  {
    match step.kind
    case "summarize" => SummarizeRequest(input, step.config)
    case "translate" => TranslateRequest(input, step.config)
    case "rewrite" => RewriteRequest(input, step.config)
    case _ => ExtractRequest(input, step.config)
  }

  /** A translate step whose resolved language is not on the allow-list. */
  predicate IsRestricted(step: Step) {
    step.kind == "translate" && !Languages.ValidateLanguage(TargetLanguage(step.config))
  }

  /**
   * A known step succeeds exactly when it is not restricted and the
   * generator answers its prompt with non-blank text, and the step's output
   * is that text, untrimmed.
   */
  lemma StepSucceedsIffGenerated(step: Step, input: string, gen: Generator)
    requires IsKnownType(step.kind)
    ensures var r := ExecuteStep(step, input, gen);
            var reply := gen(PromptFor(step, input));
            && (r.Ok? <==> !IsRestricted(step) && reply.Generated? && !IsBlank(reply.text))
            && (r.Ok? ==> r.value == reply.text)
  {
  }

  /**
   * A restricted translate step fails with the restriction message whatever
   * the generator would answer: it never reaches the generator.
   */
  lemma RestrictionPrecedesGeneration(step: Step, input: string, gen1: Generator, gen2: Generator)
    requires IsRestricted(step)
    ensures ExecuteStep(step, input, gen1) == ExecuteStep(step, input, gen2)
    ensures ExecuteStep(step, input, gen1) == Err(Languages.RestrictedMessage(TargetLanguage(step.config)))
  {
  }

  /**
   * Every other failure of a known step carries the handler's prefix, followed by
   * the empty-response message or by the message of what the generator threw.
   */
  lemma FailureIsPrefixedByHandler(step: Step, input: string, gen: Generator)
    requires IsKnownType(step.kind) && !IsRestricted(step)
    requires ExecuteStep(step, input, gen).Err?
    ensures var reply := gen(PromptFor(step, input));
            ExecuteStep(step, input, gen).error
            == HandlerName(step.kind) + " failed: "
               + (if reply.Generated? then EmptyResponseMessage else MessageOf(reply.thrown))
  {
  }

  /**
   * Each field is filled on its own: an absent field takes the service's
   * default, a present one is used as given. An absent or empty keyword list
   * selects the generic extraction prompt; otherwise the keywords are joined
   * with ", ".
   */
  lemma DefaultsFilled(input: string, config: StepConfig)
    ensures config.length.Some? ==> SummarizeRequest(input, config).length == config.length.value
    ensures config.length.None? ==> SummarizeRequest(input, config).length == "medium"
    ensures config.format.Some? ==> SummarizeRequest(input, config).format == config.format.value
    ensures config.format.None? ==> SummarizeRequest(input, config).format == "paragraph"
    ensures config.targetLanguage.Some? ==> TranslateRequest(input, config).targetLanguage == config.targetLanguage.value
    ensures config.targetLanguage.None? ==> TranslateRequest(input, config).targetLanguage == "Spanish"
    ensures config.style.Some? ==> RewriteRequest(input, config).style == config.style.value
    ensures config.style.None? ==> RewriteRequest(input, config).style == "professional"
    ensures config.keywords.None? || config.keywords == Some([]) ==> ExtractRequest(input, config).focus == None
    ensures config.keywords.Some? && |config.keywords.value| > 0
            ==> ExtractRequest(input, config).focus == Some(Join(config.keywords.value, ", "))
    ensures SummarizeRequest(input, config).text == input && TranslateRequest(input, config).text == input
    ensures RewriteRequest(input, config).text == input && ExtractRequest(input, config).text == input
  {
  }

  /** A handler prefix never mentions a restriction. */
  lemma HandlerPrefixNotRestricted(kind: string)
    requires IsKnownType(kind)
    ensures !Contains(HandlerName(kind) + " failed: ", "restricted")
  {
    var name := HandlerName(kind);
    assert 'c' !in " failed: " && 's' !in " failed: ";
    if kind == "extract" {
      assert 's' !in name;
      NotContainsWithout(name + " failed: ", "restricted", 's');
    } else {
      assert 'c' !in name;
      NotContainsWithout(name + " failed: ", "restricted", 'c');
    }
  }

  /**
   * A failed step's message mentions "restricted" exactly when the step is a
   * restricted translation or the generator threw an `Error` whose own
   * message mentions it.
   */
  lemma {:induction false} FailureMentionsRestrictedIff(step: Step, input: string, gen: Generator)
    requires ExecuteStep(step, input, gen).Err?
    ensures var reply := gen(PromptFor(step, input));
            Contains(ExecuteStep(step, input, gen).error, "restricted")
            <==> IsRestricted(step)
                 || (reply.Threw? && reply.thrown.ErrorObject? && Contains(reply.thrown.message, "restricted"))
  {
    var reply := gen(PromptFor(step, input));
    if !IsRestricted(step) {
      var prefix := HandlerName(step.kind) + " failed: ";
      FailureIsPrefixedByHandler(step, input, gen);
      HandlerPrefixNotRestricted(step.kind);
      var rest := if reply.Generated? then EmptyResponseMessage else MessageOf(reply.thrown);
      ContainsSplit(prefix, rest, "restricted");
      if reply.Generated? {
        EmptyResponseNotRestricted();
      } else if reply.thrown.NonError? {
        NotContainsWithout("Unknown error", "restricted", 'c');
      }
    }
  }
}
