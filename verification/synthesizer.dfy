/**
 * `generatePipelineSteps` of the AI service (backend/src/services/aiService.ts):
 * the generator is asked for a JSON array of steps, the trimmed reply is
 * parsed, and the parsed list is accepted only when every element passes
 * the element checks; otherwise the whole list is refused with the first
 * element's problem.
 */
module Synthesizer {
  import opened Wrappers
  import opened Strings
  import opened Json
  import opened Generation
  import opened Languages

  /** The four accepted values of an element's `type`. */
  const StepTypes: seq<Json> := [JString("summarize"), JString("translate"), JString("rewrite"), JString("extract")]

  /** Why one element of the parsed list was refused, in the order the checks run. */
  datatype Problem =
    | NullElement                    // reading `id` of `null` throws a TypeError
    | MissingField                   // `id`, `type` or `config` is falsy
    | UnknownType(kind: Json)
    | UnsupportedLanguage(language: Json)

  /** Why `generatePipelineSteps` failed. */
  datatype Failure =
    | InvalidJson                    // a `SyntaxError`, from the parse or from the client
    | GenerationThrew(thrown: Thrown)
    | EmptyResponse
    | NotAnArray
    | InvalidElement(problem: Problem)

  /** The messages, written in pieces for the substring lemmas. */
  const InvalidJsonMessage: string := "AI service " + "returned " + "invalid " + "JSON. " + "Please try again."
  const NotAnArrayMessage: string := "AI service " + "returned invalid response format"
  const InvalidFormatMessage: string := "Invalid step format in AI response"
  const InvalidTypePrefix: string := "Invalid step type: "
  const WrapPrefix: string := "Pipeline step generation failed: "

  /**
   * The message the loop throws for a refused element; when the template
   * cannot render the offending value, the TypeError it throws takes the
   * message's place.
   */
  function ProblemMessage(p: Problem): string {
    match p
    case NullElement => NullReadMessage("id")
    case MissingField => InvalidFormatMessage
    case UnknownType(kind) =>
      (match Display(kind)
       case Ok(text) => InvalidTypePrefix + text
       case Err(e) => e)
    case UnsupportedLanguage(language) =>
      (match Display(language)
       case Ok(text) => RestrictedMessage(text)
       case Err(e) => e)
  }

  /**
   * The message the caller sees: a `SyntaxError` becomes the invalid-JSON
   * message, everything else is wrapped with the generation-failed prefix.
   */
  function FailureMessage(f: Failure): string {
    match f
    case InvalidJson => InvalidJsonMessage
    case GenerationThrew(thrown) => WrapPrefix + MessageOf(thrown)
    case EmptyResponse => WrapPrefix + EmptyResponseMessage
    case NotAnArray => WrapPrefix + NotAnArrayMessage
    case InvalidElement(p) => WrapPrefix + ProblemMessage(p)
  }

  /** A language value `validateLanguage` accepts: a string on the allow-list. */
  predicate SupportedValue(v: Json) {
    v.JString? && ValidateLanguage(v.s)
  }

  /**
   * Reference definition of an acceptable element: truthy `id`, `type` and
   * `config`, a known type, and, for a translation, either no truthy
   * `targetLanguage` in its config or a supported one.
   */
  predicate ValidElement(step: Json) {
    && Truthy(Field(step, "id")) && Truthy(Field(step, "type")) && Truthy(Field(step, "config"))
    && Field(step, "type").value in StepTypes
    && (Field(step, "type").value == JString("translate")
        && Truthy(Field(Field(step, "config").value, "targetLanguage"))
        ==> SupportedValue(Field(Field(step, "config").value, "targetLanguage").value))
  }

  /** The body of the validation loop for one element: its problem, or `None` when it passes. */
  function ElementProblem(step: Json): (p: Option<Problem>)
    ensures p.None? <==> ValidElement(step)
    ensures p == Some(NullElement) <==> step.JNull?
  {
    match HasIdTypeConfig(step)
    case Err(_) => Some(NullElement)
    case Ok(present) =>
      if !present then Some(MissingField)
      else
        var kind := Field(step, "type").value;
        if kind !in StepTypes then Some(UnknownType(kind))
        else
          var language := Field(Field(step, "config").value, "targetLanguage");
          if kind == JString("translate") && Truthy(language) && !SupportedValue(language.value)
          then Some(UnsupportedLanguage(language.value))
          else None
  }

  /** The whole loop: the first element's problem, or `None` when all pass. */
  function ElementsProblem(items: seq<Json>): Option<Problem>
    decreases |items|
  {
    if items == [] then None
    else if ElementProblem(items[0]).Some? then ElementProblem(items[0])
    else ElementsProblem(items[1..])
  }

  /** The validation loop; it stops at the first element that fails. */
  method ValidateElements(items: seq<Json>) returns (problem: Option<Problem>)
    ensures problem == ElementsProblem(items)
  {
    var i := 0;
    while i < |items|
      invariant 0 <= i <= |items|
      invariant ElementsProblem(items) == ElementsProblem(items[i..])
    {
      assert items[i..][1..] == items[i + 1..];
      var p := ElementProblem(items[i]);
      if p.Some? {
        return p;
      }
      i := i + 1;
    }
    return None;
  }

  /** The prompt: the allow-list, which the prompt joins with ", ", and the instruction. */
  function SynthesisRequest(instruction: string): Prompt {
    SynthesisPrompt(SupportedLanguages, instruction)
  }

  /**
   * Reference semantics of `generatePipelineSteps`, with the failure kept
   * structured; `parse` is `JSON.parse`, with `None` for a `SyntaxError`.
   */
  function SynthesisOutcome(instruction: string, gen: Generator, parse: string -> Option<Json>): Result<seq<Json>, Failure> {
    match gen(SynthesisRequest(instruction))
    case Threw(thrown) =>
      if thrown.ErrorObject? && thrown.isSyntaxError then Err(InvalidJson) else Err(GenerationThrew(thrown))
    case Generated(text) =>
      if IsBlank(text) then Err(EmptyResponse)
      else
        match parse(Trim(text))
        case None => Err(InvalidJson)
        case Some(JArray(items)) =>
          (match ElementsProblem(items)
           case Some(problem) => Err(InvalidElement(problem))
           case None => Ok(items))
        case Some(_) => Err(NotAnArray)
  }

  /** What the caller of `generatePipelineSteps` receives: the steps, or the thrown message. */
  function Synthesis(instruction: string, gen: Generator, parse: string -> Option<Json>): Result<seq<Json>, string> {
    match SynthesisOutcome(instruction, gen, parse)
    case Ok(items) => Ok(items)
    case Err(f) => Err(FailureMessage(f))
  }

  /** `generatePipelineSteps`, with the validation loop as a method. */
  method GeneratePipelineSteps(instruction: string, gen: Generator, parse: string -> Option<Json>)
    returns (r: Result<seq<Json>, string>)
    ensures r == Synthesis(instruction, gen, parse)
  {
    var reply := gen(SynthesisRequest(instruction));
    if reply.Threw? {
      if reply.thrown.ErrorObject? && reply.thrown.isSyntaxError {
        return Err(FailureMessage(InvalidJson));
      }
      return Err(FailureMessage(GenerationThrew(reply.thrown)));
    }
    if IsBlank(reply.text) {
      return Err(FailureMessage(EmptyResponse));
    }
    var parsed := parse(Trim(reply.text));
    if parsed.None? {
      return Err(FailureMessage(InvalidJson));
    }
    if !parsed.value.JArray? {
      return Err(FailureMessage(NotAnArray));
    }
    var problem := ValidateElements(parsed.value.items);
    if problem.Some? {
      return Err(FailureMessage(InvalidElement(problem.value)));
    }
    return Ok(parsed.value.items);
  }

  /** All or nothing: the loop passes exactly when every element is valid. */
  lemma {:induction false} AllOrNothing(items: seq<Json>)
    ensures ElementsProblem(items).None? <==> forall i :: 0 <= i < |items| ==> ValidElement(items[i])
    decreases |items|
  {
    if items != [] {
      AllOrNothing(items[1..]);
      assert forall i :: 1 <= i < |items| ==> items[i] == items[1..][i - 1];
    }
  }

  /** The reported problem is that of the first invalid element. */
  lemma {:induction false} FirstProblemWins(items: seq<Json>, k: nat)
    requires k < |items| && !ValidElement(items[k])
    requires forall j :: 0 <= j < k ==> ValidElement(items[j])
    ensures ElementsProblem(items) == ElementProblem(items[k])
    decreases k
  {
    if k > 0 {
      FirstProblemWins(items[1..], k - 1);
    }
  }

  /**
   * Synthesis succeeds exactly when the reply is non-blank text whose trim
   * parses to an array of valid elements, and it then returns that array
   * unchanged.
   */
  lemma SynthesisSucceedsIff(instruction: string, gen: Generator, parse: string -> Option<Json>)
    ensures var r := Synthesis(instruction, gen, parse);
            var reply := gen(SynthesisRequest(instruction));
            && (r.Ok? <==>
                  reply.Generated? && !IsBlank(reply.text)
                  && parse(Trim(reply.text)).Some? && parse(Trim(reply.text)).value.JArray?
                  && forall i :: 0 <= i < |parse(Trim(reply.text)).value.items| ==>
                       ValidElement(parse(Trim(reply.text)).value.items[i]))
            && (r.Ok? ==> r.value == parse(Trim(reply.text)).value.items)
  {
    var reply := gen(SynthesisRequest(instruction));
    OutcomeOkIff(instruction, gen, parse);
    SynthesisOkIff(instruction, gen, parse);
    if reply.Generated? && !IsBlank(reply.text) && parse(Trim(reply.text)).Some? && parse(Trim(reply.text)).value.JArray? {
      AllOrNothing(parse(Trim(reply.text)).value.items);
    }
  }

  /** `SynthesisSucceedsIff` with the validation loop's verdict in place of the element-wise check. */
  lemma OutcomeOkIff(instruction: string, gen: Generator, parse: string -> Option<Json>)
    ensures var r := SynthesisOutcome(instruction, gen, parse);
            var reply := gen(SynthesisRequest(instruction));
            && (r.Ok? <==>
                  reply.Generated? && !IsBlank(reply.text)
                  && parse(Trim(reply.text)).Some? && parse(Trim(reply.text)).value.JArray?
                  && ElementsProblem(parse(Trim(reply.text)).value.items).None?)
            && (r.Ok? ==> r.value == parse(Trim(reply.text)).value.items)
  {
    var reply := gen(SynthesisRequest(instruction));
    if reply.Generated? && !IsBlank(reply.text) {
      var parsed := parse(Trim(reply.text));
      assert SynthesisOutcome(instruction, gen, parse) ==
        match parsed
        case None => Err(InvalidJson)
        case Some(JArray(items)) =>
          (match ElementsProblem(items)
           case Some(problem) => Err(InvalidElement(problem))
           case None => Ok(items))
        case Some(_) => Err(NotAnArray);
    }
  }

  /** The caller receives the steps exactly when the outcome is a success, and then the same steps. */
  lemma SynthesisOkIff(instruction: string, gen: Generator, parse: string -> Option<Json>)
    ensures var r, o := Synthesis(instruction, gen, parse), SynthesisOutcome(instruction, gen, parse);
            (r.Ok? <==> o.Ok?) && (r.Ok? ==> r.value == o.value)
  {
  }

  /**
   * The invalid-JSON failure is reported exactly for a thrown `SyntaxError`
   * and for non-blank text that does not parse.
   */
  lemma InvalidJsonIff(instruction: string, gen: Generator, parse: string -> Option<Json>)
    ensures var reply := gen(SynthesisRequest(instruction));
            SynthesisOutcome(instruction, gen, parse) == Err(InvalidJson)
            <==> (reply.Threw? && reply.thrown.ErrorObject? && reply.thrown.isSyntaxError)
                 || (reply.Generated? && !IsBlank(reply.text) && parse(Trim(reply.text)).None?)
  {
  }

  /** Every message but the invalid-JSON one carries the generation-failed prefix. */
  lemma WrappedUnlessInvalidJson(f: Failure)
    ensures f != InvalidJson <==> StartsWith(FailureMessage(f), WrapPrefix)
  {
    if f == InvalidJson {
      assert InvalidJsonMessage[0] == 'A' && WrapPrefix[0] == 'P';
    }
  }

  /** A translate element naming an unsupported language string is refused for that language. */
  lemma UnsupportedLanguageProblem(step: Json, language: string)
    requires step.JObject? && Truthy(Field(step, "id"))
    requires Field(step, "type") == Some(JString("translate"))
    requires Field(step, "config").Some? && Field(step, "config").value.JObject?
    requires Field(Field(step, "config").value, "targetLanguage") == Some(JString(language))
    requires language != "" && !ValidateLanguage(language)
    ensures ElementProblem(step) == Some(UnsupportedLanguage(JString(language)))
  {
    assert HasIdTypeConfig(step) == Ok(true);
    assert !SupportedValue(JString(language));
  }

  /**
   * A suggested translation to an unsupported language string refuses the
   * whole list with that language as the problem, unless an earlier element
   * already failed; the message names the language and says it is restricted.
   */
  lemma RestrictedSuggestionRefused(items: seq<Json>, k: nat, language: string)
    requires k < |items| && items[k].JObject?
    requires forall j :: 0 <= j < k ==> ValidElement(items[j])
    requires Truthy(Field(items[k], "id"))
    requires Field(items[k], "type") == Some(JString("translate"))
    requires Field(items[k], "config").Some? && Field(items[k], "config").value.JObject?
    requires Field(Field(items[k], "config").value, "targetLanguage") == Some(JString(language))
    requires language != "" && !ValidateLanguage(language)
    ensures ElementsProblem(items) == Some(UnsupportedLanguage(JString(language)))
    ensures Contains(ProblemMessage(UnsupportedLanguage(JString(language))), "restricted")
    ensures Contains(ProblemMessage(UnsupportedLanguage(JString(language))), language)
  {
    UnsupportedLanguageProblem(items[k], language);
    FirstProblemWins(items, k);
    RefusalNamesLanguage(language);
  }

  /** The refusal of a language string names that string and says it is restricted. */
  lemma RefusalNamesLanguage(language: string)
    ensures var m := ProblemMessage(UnsupportedLanguage(JString(language)));
            Contains(m, "restricted") && Contains(m, language)
  {
    assert Display(JString(language)) == Ok(language);
  }

  /**
   * A suggested translation whose language is an object with a `toString`
   * key is refused for its language, but rendering it in the refusal throws:
   * the caller gets the wrapped TypeError, which does not say "restricted".
   */
  lemma UnrenderableLanguageRefused(items: seq<Json>, k: nat, language: map<string, Json>)
    requires k < |items| && items[k].JObject?
    requires forall j :: 0 <= j < k ==> ValidElement(items[j])
    requires Truthy(Field(items[k], "id"))
    requires Field(items[k], "type") == Some(JString("translate"))
    requires Field(items[k], "config").Some? && Field(items[k], "config").value.JObject?
    requires Field(Field(items[k], "config").value, "targetLanguage") == Some(JObject(language))
    requires "toString" in language
    ensures ElementsProblem(items) == Some(UnsupportedLanguage(JObject(language)))
    ensures FailureMessage(InvalidElement(UnsupportedLanguage(JObject(language)))) == WrapPrefix + ToPrimitiveMessage
    ensures !Contains(FailureMessage(InvalidElement(UnsupportedLanguage(JObject(language)))), "restricted")
  {
    UnrenderableLanguageProblem(items[k], language);
    FirstProblemWins(items, k);
    UnrenderableLanguageMessage(language);
  }

  /** A translate element whose language is an object is refused for that language. */
  lemma UnrenderableLanguageProblem(step: Json, language: map<string, Json>)
    requires step.JObject? && Truthy(Field(step, "id"))
    requires Field(step, "type") == Some(JString("translate"))
    requires Field(step, "config").Some? && Field(step, "config").value.JObject?
    requires Field(Field(step, "config").value, "targetLanguage") == Some(JObject(language))
    ensures ElementProblem(step) == Some(UnsupportedLanguage(JObject(language)))
  {
    assert JString("translate") in StepTypes;
    assert !SupportedValue(JObject(language));
  }

  /** The refusal of an object language with a `toString` key is the wrapped TypeError. */
  lemma UnrenderableLanguageMessage(language: map<string, Json>)
    requires "toString" in language
    ensures FailureMessage(InvalidElement(UnsupportedLanguage(JObject(language)))) == WrapPrefix + ToPrimitiveMessage
    ensures !Contains(WrapPrefix + ToPrimitiveMessage, "restricted")
  {
    assert Display(JObject(language)) == Err(ToPrimitiveMessage);
    NotContainsWithout(WrapPrefix, "restricted", 'c');
    ToPrimitiveNotRestricted();
    ContainsSplit(WrapPrefix, ToPrimitiveMessage, "restricted");
  }

  /**
   * A translate element with truthy `id` and `config` whose config has no
   * truthy `targetLanguage` (absent, `null`, `false`, `0` or "") passes: the
   * language check only looks at a truthy language.
   */
  lemma TranslateWithoutLanguagePasses(step: Json)
    requires Truthy(Field(step, "id")) && Truthy(Field(step, "config"))
    requires Field(step, "type") == Some(JString("translate"))
    requires !Truthy(Field(Field(step, "config").value, "targetLanguage"))
    ensures ElementProblem(step) == None
    ensures ValidElement(step)
  {
    assert JString("translate") in StepTypes;
  }

  /** The fixed messages of the validation loop do not mention a restriction. */
  lemma ProblemPrefixesNotRestricted()
    ensures !Contains(WrapPrefix, "restricted")
    ensures !Contains(InvalidFormatMessage, "restricted")
    ensures !Contains(InvalidTypePrefix, "restricted")
    ensures !Contains(NullReadMessage("id"), "restricted")
  {
    NotContainsWithout(WrapPrefix, "restricted", 'c');
    NotContainsWithout(InvalidFormatMessage, "restricted", 'c');
    NotContainsWithout(InvalidTypePrefix, "restricted", 'c');
    NullReadNotRestricted();
  }

  /** The TypeError of a `null` element does not mention a restriction. */
  lemma NullReadNotRestricted()
    ensures !Contains(NullReadMessage("id"), "restricted")
  {
    var p1, p2 := "Cannot read properties of null (reading '", "id')";
    assert NullReadMessage("id") == p1 + p2;
    NotContainsWithout(p1, "restricted", 'c');
    NotContainsShort(p2, "restricted");
    ContainsSplit(p1, p2, "restricted");
  }

  /** The TypeError of a value the template cannot render does not mention a restriction. */
  lemma ToPrimitiveNotRestricted()
    ensures !Contains(ToPrimitiveMessage, "restricted")
  {
    NotContainsWithout(ToPrimitiveMessage, "restricted", 's');
  }

  /** The invalid-JSON message does not mention a restriction. */
  lemma InvalidJsonNotRestricted()
    ensures !Contains(InvalidJsonMessage, "restricted")
  {
    var p1, p2, p3, p4, p5 := "AI service ", "returned ", "invalid ", "JSON. ", "Please try again.";
    ServiceReturnedNotRestricted();
    NotContainsShort(p3, "restricted");
    NotContainsShort(p4, "restricted");
    NotContainsWithout(p5, "restricted", 'c');
    ContainsSplitAfter(p1, p2, p3, "restricted");
    ContainsSplitAfter(p1 + p2, p3, p4, "restricted");
    ContainsSplitAfter(p1 + p2 + p3, p4, p5, "restricted");
  }

  /** The message about a reply that is not an array does not mention a restriction. */
  lemma NotAnArrayNotRestricted()
    ensures !Contains(NotAnArrayMessage, "restricted")
  {
    NotContainsWithout("AI service ", "restricted", 'd');
    NotContainsWithout("returned invalid response format", "restricted", 'c');
    ContainsSplit("AI service ", "returned invalid response format", "restricted");
  }

  /**
   * A failure message mentions "restricted" exactly when the failure is an
   * unsupported suggested language that the template can render, an unknown
   * type whose rendering mentions it, or a thrown `Error` whose message
   * mentions it.
   */
  lemma {:induction false} FailureMentionsRestrictedIff(f: Failure)
    ensures Contains(FailureMessage(f), "restricted")
            <==> (f.InvalidElement? && f.problem.UnsupportedLanguage? && !RenderingThrows(f.problem.language))
                 || (f.InvalidElement? && f.problem.UnknownType? && Display(f.problem.kind).Ok?
                     && Contains(Display(f.problem.kind).value, "restricted"))
                 || (f.GenerationThrew? && f.thrown.ErrorObject? && Contains(f.thrown.message, "restricted"))
  {
    ProblemPrefixesNotRestricted();
    InvalidJsonNotRestricted();
    NotAnArrayNotRestricted();
    match f
    case InvalidJson =>
    case GenerationThrew(thrown) =>
      ContainsSplit(WrapPrefix, MessageOf(thrown), "restricted");
      if thrown.NonError? {
        NotContainsWithout("Unknown error", "restricted", 'c');
      }
    case EmptyResponse =>
      EmptyResponseNotRestricted();
      ContainsSplit(WrapPrefix, EmptyResponseMessage, "restricted");
    case NotAnArray =>
      ContainsSplit(WrapPrefix, NotAnArrayMessage, "restricted");
    case InvalidElement(p) =>
      ContainsSplit(WrapPrefix, ProblemMessage(p), "restricted");
      match p
      case NullElement =>
      case MissingField =>
      case UnknownType(kind) =>
        if Display(kind).Ok? {
          ContainsSplit(InvalidTypePrefix, Display(kind).value, "restricted");
        } else {
          ToPrimitiveNotRestricted();
        }
      case UnsupportedLanguage(language) =>
        if Display(language).Err? {
          ToPrimitiveNotRestricted();
        }
  }
}
