/**
 * The request handlers of backend/src/app/controllers/aiController.ts:
 * `executePipeline` checks the body's `steps` and `input` and each step's
 * shape before running the pipeline; `generatePipelineSteps` checks
 * `instruction` before synthesising. Both sort a thrown error into 400 or
 * 500 by whether its message contains "restricted".
 */
module Controller {
  import opened Wrappers
  import opened Strings
  import opened Json
  import opened Generation
  import opened StepExecutor
  import opened PipelineEngine
  import Synthesizer

  /** What a handler sends back. */
  datatype Response =
    | BadRequest(error: string)                          // 400 `{ error }`
    | ErrorBody(code: nat, error: string, message: string)  // `{ error, message, status: 'failed' }`
    | ExecutionBody(execution: Execution)                // 200, the execution record as returned
    | StepsBody(steps: seq<Json>)                        // 200 `{ steps }`

  function StatusCode(r: Response): nat {
    match r
    case BadRequest(_) => 400
    case ErrorBody(code, _, _) => code
    case _ => 200
  }

  const StepsRequiredMessage: string := "Invalid request: steps array is required"
  const InputRequiredMessage: string := "Invalid request: input text is required"
  const StepFormatMessage: string := "Invalid step format: each step must have id, type, and config"
  const InstructionRequiredMessage: string := "Invalid request: instruction text is required"
  const LanguageRestrictionLabel: string := "Language restriction"
  const ExecutionFailedLabel: string := "Pipeline execution failed"
  const GenerationFailedLabel: string := "Pipeline step generation failed"

  /** The service's `executePipeline`: the steps and input as received, to the record or the thrown message. */
  type Runner = (seq<Json>, string) -> Result<Execution, string>

  /** The service's `generatePipelineSteps`: an instruction, to the steps or the thrown message. */
  type Synthesiser = string -> Result<seq<Json>, string>

  /** Destructuring a key of the request body; an absent key is `undefined`. */
  function Lookup(body: map<string, Json>, key: string): Option<Json> {
    if key in body then Some(body[key]) else None
  }

  /** `!v || typeof v !== 'string'` is false: a non-empty string. */
  predicate NonEmptyString(v: Option<Json>) {
    v.Some? && v.value.JString? && v.value.s != ""
  }

  /** The `catch` clause: a message mentioning "restricted" is a 400, anything else a 500. */
  function Classify(message: string, fallback: string): (r: Response)
    ensures r.ErrorBody? && r.message == message
    ensures StatusCode(r) == 400 <==> Contains(message, "restricted")
    ensures StatusCode(r) == 400 ==> r.error == LanguageRestrictionLabel
    ensures StatusCode(r) != 400 ==> StatusCode(r) == 500 && r.error == fallback
  {
    if Contains(message, "restricted") then ErrorBody(400, LanguageRestrictionLabel, message)
    else ErrorBody(500, fallback, message)
  }

  /** Outcome of the per-step loop: all pass, one lacks a field, or one is `null` and the read throws. */
  datatype Gate = Pass | Reject | Throws(message: string)

  /** The per-step loop: it returns or throws at the first step that does not pass. */
  function StepsGate(items: seq<Json>): Gate
    decreases |items|
  {
    if items == [] then Pass
    else
      match HasIdTypeConfig(items[0])
      case Err(e) => Throws(e)
      case Ok(present) => if present then StepsGate(items[1..]) else Reject
  }

  /** A step passes the controller's check: not `null`, with truthy `id`, `type` and `config`. */
  predicate ShapedStep(step: Json) {
    HasIdTypeConfig(step) == Ok(true)
  }

  /** A body the handler hands to the service. */
  predicate Admitted(body: map<string, Json>) {
    && Lookup(body, "steps").Some? && Lookup(body, "steps").value.JArray?
    && NonEmptyString(Lookup(body, "input"))
    && forall i :: 0 <= i < |Lookup(body, "steps").value.items| ==> ShapedStep(Lookup(body, "steps").value.items[i])
  }

  /** `executePipeline`, with the service as a parameter. */
  function ExecuteResponse(body: map<string, Json>, run: Runner): Response {
    var steps := Lookup(body, "steps");
    var input := Lookup(body, "input");
    if !(steps.Some? && steps.value.JArray?) then BadRequest(StepsRequiredMessage)
    else if !NonEmptyString(input) then BadRequest(InputRequiredMessage)
    else
      match StepsGate(steps.value.items)
      case Reject => BadRequest(StepFormatMessage)
      case Throws(message) => Classify(message, ExecutionFailedLabel)
      case Pass =>
        match run(steps.value.items, input.value.s)
        case Ok(execution) => ExecutionBody(execution)
        case Err(message) => Classify(message, ExecutionFailedLabel)
  }

  /** `generatePipelineSteps`, with the service as a parameter. */
  function GenerateResponse(body: map<string, Json>, synth: Synthesiser): Response {
    var instruction := Lookup(body, "instruction");
    if !NonEmptyString(instruction) then BadRequest(InstructionRequiredMessage)
    else
      match synth(instruction.value.s)
      case Ok(steps) => StepsBody(steps)
      case Err(message) => Classify(message, GenerationFailedLabel)
  }

  /** The per-step loop passes exactly when every step is shaped. */
  lemma {:induction false} StepsGatePassIff(items: seq<Json>)
    ensures StepsGate(items) == Pass <==> forall i :: 0 <= i < |items| ==> ShapedStep(items[i])
    decreases |items|
  {
    if items != [] {
      StepsGatePassIff(items[1..]);
      assert forall i :: 1 <= i < |items| ==> items[i] == items[1..][i - 1];
    }
  }

  /**
   * The first step that is not shaped decides: a `null` step throws the
   * TypeError of the read, any other answers the step-format message.
   */
  lemma {:induction false} FirstUnshapedStepDecides(items: seq<Json>, k: nat)
    requires k < |items| && !ShapedStep(items[k])
    requires forall j :: 0 <= j < k ==> ShapedStep(items[j])
    ensures StepsGate(items) == if items[k].JNull? then Throws(NullReadMessage("id")) else Reject
    decreases k
  {
    if k > 0 {
      FirstUnshapedStepDecides(items[1..], k - 1);
    }
  }

  /**
   * The checks run in order and the service is called only for an admitted
   * body: a missing or non-array `steps` is refused first, then a missing,
   * empty or non-string `input`, whatever the service would do.
   */
  lemma RefusedBeforeRunning(body: map<string, Json>, run: Runner, other: Runner)
    requires !Admitted(body)
    ensures ExecuteResponse(body, run) == ExecuteResponse(body, other)
    ensures !(Lookup(body, "steps").Some? && Lookup(body, "steps").value.JArray?)
            ==> ExecuteResponse(body, run) == BadRequest(StepsRequiredMessage)
    ensures Lookup(body, "steps").Some? && Lookup(body, "steps").value.JArray? && !NonEmptyString(Lookup(body, "input"))
            ==> ExecuteResponse(body, run) == BadRequest(InputRequiredMessage)
  {
    var steps := Lookup(body, "steps");
    if steps.Some? && steps.value.JArray? && NonEmptyString(Lookup(body, "input")) {
      StepsGatePassIff(steps.value.items);
    }
  }

  /** An admitted body reaches the service with its steps and input unchanged, and its result is passed on. */
  lemma AdmittedIsPassedThrough(body: map<string, Json>, run: Runner)
    requires Admitted(body)
    ensures var items := Lookup(body, "steps").value.items;
            var input := Lookup(body, "input").value.s;
            && (run(items, input).Ok? ==> ExecuteResponse(body, run) == ExecutionBody(run(items, input).value))
            && (run(items, input).Err? ==>
                  ExecuteResponse(body, run).ErrorBody? && ExecuteResponse(body, run).message == run(items, input).error)
  {
    StepsGatePassIff(Lookup(body, "steps").value.items);
  }

  /**
   * A blank input is not refused: the check does not trim, so any non-empty
   * string of whitespace passes it, and the body is admitted exactly when
   * every step is shaped.
   */
  lemma WhitespaceInputAdmitted(body: map<string, Json>, run: Runner)
    requires Lookup(body, "steps").Some? && Lookup(body, "steps").value.JArray?
    requires var input := Lookup(body, "input");
             input.Some? && input.value.JString? && input.value.s != "" && IsBlank(input.value.s)
    ensures ExecuteResponse(body, run) != BadRequest(InputRequiredMessage)
    ensures Admitted(body) <==> forall i :: 0 <= i < |Lookup(body, "steps").value.items| ==>
                                  ShapedStep(Lookup(body, "steps").value.items[i])
  {
    var items := Lookup(body, "steps").value.items;
    StepsGatePassIff(items);
  }

  /**
   * Paired with the engine: when the service runs the steps and a step
   * fails, the answer is a 400 exactly when that step is a restricted
   * translation or the generator threw an `Error` mentioning "restricted";
   * the message is the step's error either way.
   */
  lemma EngineFailureStatus(body: map<string, Json>, run: Runner, steps: seq<Step>, gen: Oracle,
                            durations: Durations, elapsed: nat, createdAt: string)
    requires Admitted(body)
    requires var input := Lookup(body, "input").value.s;
             run(Lookup(body, "steps").value.items, input) == PipelineResult(steps, input, gen, durations, elapsed, createdAt)
    requires PipelineResult(steps, Lookup(body, "input").value.s, gen, durations, elapsed, createdAt).Err?
    ensures var input := Lookup(body, "input").value.s;
            var t := Run(steps, input, Service(gen, durations), 0);
            var k := |t.outputs|;
            && k < |steps| && IsKnownType(steps[k].kind)
            && ExecuteResponse(body, run).ErrorBody?
            && ExecuteResponse(body, run).message == t.failure.value
            && var reply := gen(k)(PromptFor(steps[k], InputOf(input, t.outputs, k)));
               (StatusCode(ExecuteResponse(body, run)) == 400
                <==> IsRestricted(steps[k])
                     || (reply.Threw? && reply.thrown.ErrorObject? && Contains(reply.thrown.message, "restricted")))
  {
    var input := Lookup(body, "input").value.s;
    var t := Run(steps, input, Service(gen, durations), 0);
    var k := |t.outputs|;
    AdmittedIsPassedThrough(body, run);
    ServiceFailureIsStepError(steps, input, gen, durations, elapsed, createdAt);
    FailureMentionsRestrictedIff(steps[k], InputOf(input, t.outputs, k), gen(k));
  }

  /** A missing, empty or non-string instruction is refused before synthesis. */
  lemma InstructionChecked(body: map<string, Json>, synth: Synthesiser)
    requires !NonEmptyString(Lookup(body, "instruction"))
    ensures GenerateResponse(body, synth) == BadRequest(InstructionRequiredMessage)
  {
  }

  /**
   * Paired with the synthesiser: the steps are answered exactly as
   * synthesised, and a failure is a 400 exactly when a suggested language
   * is unsupported and can be rendered, a suggested type renders with
   * "restricted" in it, or the generator threw an `Error` mentioning it; a
   * value the template cannot render gives a 500.
   */
  lemma SynthesisStatus(body: map<string, Json>, gen: Generator, parse: string -> Option<Json>)
    requires NonEmptyString(Lookup(body, "instruction"))
    ensures var instruction := Lookup(body, "instruction").value.s;
            var r := GenerateResponse(body, i => Synthesizer.Synthesis(i, gen, parse));
            match Synthesizer.SynthesisOutcome(instruction, gen, parse)
            case Ok(steps) => r == StepsBody(steps)
            case Err(f) =>
              && r.ErrorBody? && r.message == Synthesizer.FailureMessage(f)
              && (StatusCode(r) == 400 <==>
                    (f.InvalidElement? && f.problem.UnsupportedLanguage? && !RenderingThrows(f.problem.language))
                    || (f.InvalidElement? && f.problem.UnknownType? && Display(f.problem.kind).Ok?
                        && Contains(Display(f.problem.kind).value, "restricted"))
                    || (f.GenerationThrew? && f.thrown.ErrorObject? && Contains(f.thrown.message, "restricted")))
  {
    var instruction := Lookup(body, "instruction").value.s;
    match Synthesizer.SynthesisOutcome(instruction, gen, parse)
    case Ok(_) =>
    case Err(f) =>
      Synthesizer.FailureMentionsRestrictedIff(f);
  }

  /**
   * A suggested language that is an object with a `toString` key is refused,
   * but the refusal cannot be rendered: the answer is a 500 carrying the
   * wrapped TypeError, not the 400 of a language restriction.
   */
  lemma UnrenderableLanguageIsServerError(body: map<string, Json>, gen: Generator, parse: string -> Option<Json>,
                                          language: map<string, Json>)
    requires NonEmptyString(Lookup(body, "instruction"))
    requires Synthesizer.SynthesisOutcome(Lookup(body, "instruction").value.s, gen, parse)
             == Err(Synthesizer.InvalidElement(Synthesizer.UnsupportedLanguage(JObject(language))))
    requires "toString" in language
    ensures var r := GenerateResponse(body, i => Synthesizer.Synthesis(i, gen, parse));
            && StatusCode(r) == 500 && r.error == GenerationFailedLabel
            && r.message == Synthesizer.WrapPrefix + ToPrimitiveMessage
  {
    Synthesizer.UnrenderableLanguageMessage(language);
  }
}
