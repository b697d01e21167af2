# Text-pipeline core, modelled in Dafny

This project models the core of a small "AI text pipeline" application:

- **The AI service** (`backend/src/services/aiService.ts`):
  - the allow-list of thirty translation languages;
  - the step dispatcher with its four handlers: summarise, translate, rewrite and extract;
  - the sequential executor that runs a pipeline of steps. Each step's output is the next step's input. The first failure stops the run.
  - the synthesiser, which asks the text generator for a JSON list of steps and accepts that list only when every element passes its checks.
- **The HTTP controller** (`backend/src/app/controllers/aiController.ts`). It checks the request body and sends any error to 400 or 500, depending on whether the error message contains "restricted".
- **The step-list editor** (`frontend/src/components/pipeline/PipelineBuilder.tsx`). It adds, removes, reorders and reconfigures steps, and holds the default configs of new steps.

Modules, one file each:

| Module | Contents |
|---|---|
| `Wrappers` | `Option` and `Result` |
| `Strings` | JavaScript `trim`, `startsWith` and `includes` on strings, plus substring lemmas |
| `Json` | parsed JSON values, truthiness, property reads and template rendering |
| `Generation` | prompts, replies and the generator |
| `Languages` | the allow-list |
| `StepExecutor` | the handlers and `executeStep` |
| `PipelineEngine` | `Run`, the reference semantics of a run, and the `ExecutePipeline` method proved against it |
| `Synthesizer` | `generatePipelineSteps` |
| `Controller` | the two request handlers |
| `Builder` | the editor operations |
| `BuilderBridge` | how the service reads a step built in the editor |

The text generator is a parameter: a function from prompts to replies, where a reply is either generated text or a thrown value. For a run it is a function of the step index, so one prompt can get different answers at different steps. The clock and `JSON.parse` are parameters too.

Behaviours of the code that a reader might not expect, each stated by a member of the model:

- **Empty pipelines.** An empty step list is not refused. It completes with no outputs (`PipelineEngine.EmptyPipelineCompletes`).
- **No trimming.**
  - The input is not trimmed before the first step (`PipelineEngine.RunChaining`).
  - Generated text is returned exactly as generated, untrimmed (`StepExecutor.StepSucceedsIffGenerated`).
  - The controller does not trim either: a whitespace-only input passes its check (`Controller.WhitespaceInputAdmitted`).
- **Unknown step types.** A step of an unknown type passes its input through unchanged. It is not an error (`StepExecutor.ExecuteStep`).
- **Errors on a failed run.**
  - A failed step's error is rethrown unchanged, with no mention of which step failed (`PipelineEngine.ServiceFailureIsStepError`).
  - The caller receives only the error, not the record with the outcomes gathered so far (`PipelineEngine.Outcome`).
- **Values the template cannot render.** A parsed object with a `toString` key cannot be converted to a string. A suggested type or language of that kind makes the refusal itself throw a TypeError. The caller gets that TypeError, wrapped, as a 500 and not as a language restriction (`Controller.UnrenderableLanguageIsServerError`).
- **Defaults differ between the editor and the service.** The model records each difference without reconciling them (`BuilderBridge`):

  | Field | Editor | Service |
  |---|---|---|
  | Translation target language | English | Spanish |
  | Rewrite config | sets tone and style | reads only style |
  | Extract config | sets an extraction type | reads only keywords, which the editor's operations never set |

## Model

| member | source | states |
|---|---|---|
| Languages.ValidateLanguage | backend/src/services/aiService.ts:52-54 | `validateLanguage`: exact, case-sensitive membership in the allow-list; its consequences are the Languages lemmas below |
| Languages.GetSupportedLanguages | backend/src/services/aiService.ts:57-59 | returns a newly allocated array holding the thirty allowed names in definition order, so a caller cannot alter the list itself |
| Languages.SupportedLanguagesAreThirtyDistinct | backend/src/services/aiService.ts:32-39 | the allow-list has thirty entries and no name twice |
| Languages.ValidationIsCaseSensitive | backend/src/services/aiService.ts:52-54 | validation is exact membership: "English" is accepted and "english" refused |
| Languages.PaddedOrEmptyNameRefused | backend/src/services/aiService.ts:52-54 | validation does not trim: " English" and the empty name are refused |
| Languages.UnlistedLanguageRefused | backend/src/services/aiService.ts:52-54 | a name outside the list (Klingon) is refused |
| Languages.RestrictedMessage | backend/src/services/aiService.ts:152 | the refusal of a language names that language and contains "restricted" |
| Strings.TrimEmptyIffBlank | backend/src/services/aiService.ts:138 | `text.trim() === ''` holds exactly when every character is JavaScript whitespace (or the text is empty) |
| Json.Display | backend/src/services/aiService.ts:293 | `${v}` on a parsed value: its text, or the TypeError "Cannot convert object to primitive value" exactly when the value is an object with a `toString` key, or an array holding such a value at any depth |
| Json.HasIdTypeConfig | backend/src/app/controllers/aiController.ts:26 | testing `id`, `type` and `config` throws exactly for a `null` element; otherwise it is true exactly when all three are truthy |
| Generation.EmptyResponseNotRestricted | backend/src/services/aiService.ts:139 | the empty-response message does not contain "restricted", so it never produces a 400 |
| StepExecutor.SummarizeRequest | backend/src/services/aiService.ts:119-130 | `summarize`'s prompt values: length and format with their defaults, and the input |
| StepExecutor.TargetLanguage | backend/src/services/aiService.ts:149 | `translate`'s resolved target language, Spanish when absent |
| StepExecutor.TranslateRequest | backend/src/services/aiService.ts:155-160 | `translate`'s prompt values: the resolved language and the input |
| StepExecutor.RewriteRequest | backend/src/services/aiService.ts:179-186 | `rewrite`'s prompt values: the style, professional when absent, and the input; nothing else of the config is read |
| StepExecutor.KeywordFocus | backend/src/services/aiService.ts:209 | the keyword clause of `extract`: the keywords joined with ", ", or none for an empty list |
| StepExecutor.ExtractRequest | backend/src/services/aiService.ts:205-214 | `extract`'s prompt values: the keyword clause, from an empty list when keywords are absent, and the input |
| StepExecutor.Summarize | backend/src/services/aiService.ts:118-146 | `summarize`: its prompt sent once to the generator, under the guarded call |
| StepExecutor.Translate | backend/src/services/aiService.ts:148-176 | `translate`: the allow-list check on the resolved language before and outside the guarded call, then the guarded call |
| StepExecutor.Rewrite | backend/src/services/aiService.ts:178-202 | `rewrite`: its prompt sent once to the generator, under the guarded call |
| StepExecutor.Extract | backend/src/services/aiService.ts:204-230 | `extract`: its prompt sent once to the generator, under the guarded call |
| StepExecutor.Guard | backend/src/services/aiService.ts:132-145 | a handler's guarded call succeeds exactly on non-blank generated text and returns it unchanged; every failure starts with the handler's "… failed: " prefix |
| StepExecutor.ExecuteStep | backend/src/services/aiService.ts:103-116 | an unknown type returns its input unchanged; a known type that succeeds never returns blank text |
| StepExecutor.StepSucceedsIffGenerated | backend/src/services/aiService.ts:118-229 | a known step succeeds exactly when it is not a restricted translation and the generator answers its prompt with non-blank text; the output is that text, untrimmed |
| StepExecutor.RestrictionPrecedesGeneration | backend/src/services/aiService.ts:148-153 | a translation to a language outside the list fails with the unprefixed restriction message, whatever the generator would answer |
| StepExecutor.FailureIsPrefixedByHandler | backend/src/services/aiService.ts:132-229 | every other failure is the handler's name, " failed: ", then the empty-response message or the message of what was thrown ("Unknown error" for a non-Error) |
| StepExecutor.DefaultsFilled | backend/src/services/aiService.ts:118-214 | for every config, each field is filled on its own: an absent length, format, target language or style becomes medium, paragraph, Spanish or professional, and a present one is used as given; an absent or empty keyword list selects the generic extraction prompt, and a non-empty one is joined with ", "; every prompt embeds the input unchanged |
| StepExecutor.HandlerPrefixNotRestricted | backend/src/services/aiService.ts:143-229 | none of the four handler prefixes contains "restricted" |
| StepExecutor.FailureMentionsRestrictedIff | backend/src/services/aiService.ts:148-229 | a failed step's message contains "restricted" exactly when the step is a restricted translation or the generator threw an Error whose message contains it |
| PipelineEngine.Run | backend/src/services/aiService.ts:73-98 | reference semantics of the loop: each step runs on the previous output, one outcome is appended per finished step, and the first error ends the run; its properties are the Run lemmas below |
| PipelineEngine.Outcome | backend/src/services/aiService.ts:94-100 | what the caller of `executePipeline` receives: the record, or only the rethrown error |
| PipelineEngine.PipelineResult | backend/src/services/aiService.ts:61-101 | the caller-visible result of a run as a function of steps, input, generator and clock |
| PipelineEngine.ExecutePipeline | backend/src/services/aiService.ts:61-101 | the loop leaves outputs, status and rethrown error equal to those of the reference run `Run`: completed with no error, or failed with the failing step's error; pipeline id, input, createdAt and total time are as set; what the caller receives is `PipelineResult` |
| PipelineEngine.RunShape | backend/src/services/aiService.ts:76-92 | a completed run has one outcome per step, a failed run fewer outcomes than steps; outcome k carries step k's id and step k's measured duration |
| PipelineEngine.RunOutputAt | backend/src/services/aiService.ts:74-88 | outcome k is what step k produced on the input it received |
| PipelineEngine.RunFailureAt | backend/src/services/aiService.ts:76-98 | a failed run's error is that of the step right after the last outcome, run on that outcome |
| PipelineEngine.RunChaining | backend/src/services/aiService.ts:74-98 | step 0 receives the input unchanged and step k > 0 receives outcome k − 1; on failure, the failing step is the one right after the last outcome |
| PipelineEngine.RunAppend | backend/src/services/aiService.ts:76-89 | running s1 + s2 is running s1 and, unless it failed, continuing with s2 on its last output |
| PipelineEngine.SameAnswersSameRun | backend/src/services/aiService.ts:76-89 | a run depends only on the generator's answers at its own step positions |
| PipelineEngine.FailureStopsTheRun | backend/src/services/aiService.ts:76-98 | once a prefix of the steps fails, later steps and the generator's later answers change nothing: no later step is attempted |
| PipelineEngine.EmptyPipelineCompletes | backend/src/services/aiService.ts:64-92 | an empty step list completes with no outputs |
| PipelineEngine.CompletedRunShape | backend/src/services/aiService.ts:64-100 | a run that returns a record is completed, keeps the input, and has one outcome per step with that step's id, in step order |
| PipelineEngine.ServiceFailureIsStepError | backend/src/services/aiService.ts:94-98 | the error the service rethrows is, unchanged, the error of the step after the last outcome, and that step has a known type |
| PipelineEngine.RestrictedStepStopsRun | backend/src/services/aiService.ts:76-98 | a translate step to a language outside the allow-list makes the run fail at that step or earlier; when every earlier step succeeded, the error is that step's restriction message |
| PipelineEngine.RewriteScenario | backend/src/services/aiService.ts:178-202 | a one-step rewrite pipeline whose prompt is answered with "Hiya world!" completes with exactly that output |
| Synthesizer.SynthesisRequest | backend/src/services/aiService.ts:233-269 | the prompt of `generatePipelineSteps`, reduced to the values it embeds: the allow-list and the instruction |
| Synthesizer.ProblemMessage | backend/src/services/aiService.ts:288-298 | the message the loop throws for a refused element: the null-read TypeError, the step-format message, "Invalid step type: " with the type, or the restriction message naming the language; when the type or language cannot be rendered, the TypeError of the conversion |
| Synthesizer.ElementsProblem | backend/src/services/aiService.ts:287-301 | reference result of the validation loop: the problem of the first element that fails, or none |
| Synthesizer.SynthesisOutcome | backend/src/services/aiService.ts:271-303 | the reply, blank check, trimmed parse, array check and validation in the order the code runs them, with the failure kinds kept apart |
| Synthesizer.FailureMessage | backend/src/services/aiService.ts:305-310 | the `catch`: a SyntaxError becomes the invalid-JSON message, anything else is wrapped with "Pipeline step generation failed: " |
| Synthesizer.Synthesis | backend/src/services/aiService.ts:271-310 | what the caller of `generatePipelineSteps` receives: the parsed steps, or the thrown message; a refused value that the template cannot render gives the wrapped TypeError instead of the refusal |
| Synthesizer.ElementProblem | backend/src/services/aiService.ts:287-300 | one element passes the loop's checks exactly when it satisfies the reference predicate `ValidElement`; it throws the TypeError exactly when it is `null` |
| Synthesizer.ValidateElements | backend/src/services/aiService.ts:287-301 | the validation loop reports the problem of the first element that fails, or none |
| Synthesizer.GeneratePipelineSteps | backend/src/services/aiService.ts:232-310 | the result is that of `Synthesis`, the caller-visible outcome of the reply, parse and validation |
| Synthesizer.AllOrNothing | backend/src/services/aiService.ts:287-303 | the loop passes exactly when every element is valid |
| Synthesizer.FirstProblemWins | backend/src/services/aiService.ts:287-301 | the reported problem is that of the first invalid element |
| Synthesizer.OutcomeOkIff | backend/src/services/aiService.ts:271-303 | synthesis succeeds exactly when the reply is non-blank generated text that parses, once trimmed, to an array the loop passes; the result is that array |
| Synthesizer.SynthesisSucceedsIff | backend/src/services/aiService.ts:271-303 | the caller gets steps exactly when the reply is non-blank, parses to an array and every element is valid, and then gets the parsed array unchanged |
| Synthesizer.InvalidJsonIff | backend/src/services/aiService.ts:271-308 | the invalid-JSON message is reported exactly when the client throws a SyntaxError or the trimmed non-blank reply does not parse |
| Synthesizer.WrappedUnlessInvalidJson | backend/src/services/aiService.ts:305-310 | every failure except invalid JSON carries the "Pipeline step generation failed: " prefix |
| Synthesizer.UnsupportedLanguageProblem | backend/src/services/aiService.ts:296-299 | a well-formed translate element naming a language string outside the list is refused for that language |
| Synthesizer.RestrictedSuggestionRefused | backend/src/services/aiService.ts:287-299 | such an element refuses the whole list, unless an earlier element already failed |
| Synthesizer.RefusalNamesLanguage | backend/src/services/aiService.ts:298 | the resulting message names the language and contains "restricted" |
| Synthesizer.UnrenderableLanguageRefused | backend/src/services/aiService.ts:296-309 | a translate element whose language is an object with a `toString` key refuses the list (when the earlier elements are valid), and the caller gets the wrapped TypeError, which does not say "restricted" |
| Synthesizer.TranslateWithoutLanguagePasses | backend/src/services/aiService.ts:296 | any translate element with truthy id and config whose target language is absent or falsy passes the loop |
| Synthesizer.ProblemPrefixesNotRestricted | backend/src/services/aiService.ts:288-309 | the wrap prefix, the step-format message, the step-type prefix and the null-read TypeError do not contain "restricted" |
| Synthesizer.NullReadNotRestricted | backend/src/services/aiService.ts:288 | the TypeError of reading `id` of `null` does not contain "restricted" |
| Synthesizer.InvalidJsonNotRestricted | backend/src/services/aiService.ts:307 | the invalid-JSON message does not contain "restricted" |
| Synthesizer.NotAnArrayNotRestricted | backend/src/services/aiService.ts:284 | the not-an-array message does not contain "restricted" |
| Synthesizer.FailureMentionsRestrictedIff | backend/src/services/aiService.ts:277-310 | a failure message mentions "restricted" exactly for an unsupported suggested language the template can render, an unknown type whose rendering mentions it, or a thrown `Error` whose message mentions it; a value whose rendering throws gives the TypeError's message, which does not |
| Controller.StepsGate | backend/src/app/controllers/aiController.ts:25-31 | the per-step loop: it answers for the first step that lacks a truthy id, type or config, and throws for a `null` one |
| Controller.ExecuteResponse | backend/src/app/controllers/aiController.ts:6-55 | `executePipeline` with the service as a parameter: the checks in order, then the service's record or its classified error |
| Controller.GenerateResponse | backend/src/app/controllers/aiController.ts:57-88 | `generatePipelineSteps` with the synthesiser as a parameter: the instruction check, then `{ steps }` or the classified error |
| Controller.Classify | backend/src/app/controllers/aiController.ts:37-54 | an error answers 400 "Language restriction" exactly when its message contains "restricted", and otherwise 500 with the handler's label; the message is kept |
| Controller.StepsGatePassIff | backend/src/app/controllers/aiController.ts:25-31 | the per-step check passes exactly when every step has truthy id, type and config |
| Controller.FirstUnshapedStepDecides | backend/src/app/controllers/aiController.ts:25-31 | the first unshaped step decides the answer: a `null` step throws the TypeError, any other answers the step-format 400 |
| Controller.RefusedBeforeRunning | backend/src/app/controllers/aiController.ts:12-22 | a body that is not admitted never reaches the service; missing or non-array steps answer the steps 400 first, then a missing, empty or non-string input answers the input 400 |
| Controller.AdmittedIsPassedThrough | backend/src/app/controllers/aiController.ts:25-35 | an admitted body's steps and input reach the service unchanged; its record is answered as is, and its error is classified with the message kept |
| Controller.WhitespaceInputAdmitted | backend/src/app/controllers/aiController.ts:18-22 | for any body with array steps, a non-empty whitespace-only input is never answered with the input 400; the body is admitted exactly when every step is shaped |
| Controller.EngineFailureStatus | backend/src/app/controllers/aiController.ts:33-54 | with the engine behind it, a failed run answers 400 exactly when the failing step is a restricted translation or its generator threw an Error mentioning "restricted"; the message is the step's error |
| Controller.InstructionChecked | backend/src/app/controllers/aiController.ts:61-65 | a missing, empty or non-string instruction answers 400 before synthesis |
| Controller.SynthesisStatus | backend/src/app/controllers/aiController.ts:67-86 | the steps are answered as synthesised; a failure is a 400 exactly when a suggested language is unsupported and renderable, a suggested type renders with "restricted" in it, or the generator threw an `Error` mentioning it; otherwise a 500 |
| Controller.UnrenderableLanguageIsServerError | backend/src/app/controllers/aiController.ts:67-86 | a suggested language that is an object with a `toString` key is answered with a 500 carrying "Pipeline step generation failed: Cannot convert object to primitive value", not the 400 of a language restriction |
| Builder.DefaultConfig | frontend/src/components/pipeline/PipelineBuilder.tsx:100-113 | `getDefaultConfig`: medium and paragraph for summarise, English for translate, professional tone and informative style for rewrite, keywords for extract |
| Builder.AddStep | frontend/src/components/pipeline/PipelineBuilder.tsx:67-76 | `addStep`: the list with one new step appended |
| Builder.Renumber | frontend/src/components/pipeline/PipelineBuilder.tsx:81 | `.map((step, index) => ({ ...step, order: index }))` |
| Builder.Filter | frontend/src/components/pipeline/PipelineBuilder.tsx:80 | `.filter((step) => step.id !== stepId)` |
| Builder.RemoveStep | frontend/src/components/pipeline/PipelineBuilder.tsx:78-83 | `removeStep`: filter, then renumber |
| Builder.ArrayMove | frontend/src/components/pipeline/PipelineBuilder.tsx:58 | dnd-kit `arrayMove`: take the element out and insert it at the resolved position |
| Builder.HandleDragEnd | frontend/src/components/pipeline/PipelineBuilder.tsx:51-65 | `handleDragEnd`: nothing for a drop on itself, otherwise the moved list renumbered |
| Builder.SaveStepConfig | frontend/src/components/pipeline/PipelineBuilder.tsx:93-98 | `saveStepConfig`: the config replaced on the steps with the id |
| Builder.AddStepAppends | frontend/src/components/pipeline/PipelineBuilder.tsx:67-76 | adding keeps the old steps and appends one step of the chosen type with its type's default config, order equal to the old length, and an id "step-" followed by digits |
| Builder.RenumberNumbers | frontend/src/components/pipeline/PipelineBuilder.tsx:79-81 | renumbering sets each order to its position and changes nothing else |
| Builder.KeptExactly | frontend/src/components/pipeline/PipelineBuilder.tsx:80 | a position is kept exactly when its step's id differs from the removed id |
| Builder.FilterKeepsOrder | frontend/src/components/pipeline/PipelineBuilder.tsx:80 | the filter keeps, in their original order, the steps at the kept positions |
| Builder.RemoveStepDropsId | frontend/src/components/pipeline/PipelineBuilder.tsx:78-83 | removing drops every step with the id, keeps the others in relative order and renumbers them from 0 |
| Builder.RemoveAbsentId | frontend/src/components/pipeline/PipelineBuilder.tsx:78-83 | removing an id no step has only renumbers, and leaves a numbered list unchanged |
| Builder.MoveTarget | frontend/src/components/pipeline/PipelineBuilder.tsx:58 | the insert position of `arrayMove` is always a valid index; an in-range target is kept and −1 means the last position |
| Builder.ArrayMovePermutes | frontend/src/components/pipeline/PipelineBuilder.tsx:58 | a move is a permutation: the moved element lands at the resolved position and the others keep their relative order |
| Builder.IndexOf | frontend/src/components/pipeline/PipelineBuilder.tsx:55-56 | `findIndex` by id gives the first position holding the id, or −1 exactly when no step has it |
| Builder.DragEndPermutes | frontend/src/components/pipeline/PipelineBuilder.tsx:51-65 | dropping a step on itself hands nothing on; any other drop yields a renumbered permutation of the same length |
| Builder.DragEndPlacesActive | frontend/src/components/pipeline/PipelineBuilder.tsx:51-65 | the dragged step lands at the position of the step it was dropped on, or last when it was dropped outside every step |
| Builder.UnnumberedMoves | frontend/src/components/pipeline/PipelineBuilder.tsx:58-61 | ignoring the numbering, moving then renumbering equals moving |
| Builder.SaveStepConfigOnlyConfig | frontend/src/components/pipeline/PipelineBuilder.tsx:93-98 | saving changes only the config of the steps with the id; ids, types and order are kept; saving twice equals saving once; an absent id changes nothing |
| BuilderBridge.ServiceConfig | backend/src/services/aiService.ts:4-10 | the config of a step built by the editor's own operations, as the service reads it: tone and extraction type have no field there, and the editor's config has no keywords |
| BuilderBridge.ServiceStep | backend/src/services/aiService.ts:12-16 | an editor step as the service receives it |
| BuilderBridge.KindName | backend/src/services/aiService.ts:103-116 | every editor step type is a type the service dispatches to a handler |
| BuilderBridge.TranslateDefaultsDiffer | frontend/src/components/pipeline/PipelineBuilder.tsx:104-105 | a translate step added in the editor goes to English; the service's Spanish default applies only when no language is set |
| BuilderBridge.RewriteReadsOnlyStyle | frontend/src/components/pipeline/PipelineBuilder.tsx:106-107 | the editor's rewrite default asks for an informative style, and its tone never reaches the prompt |
| BuilderBridge.ExtractIgnoresExtractType | frontend/src/components/pipeline/PipelineBuilder.tsx:108-109 | whatever extraction type the editor sets, the service sends the generic extraction prompt |
| BuilderBridge.SummarizeDefaultsAgree | frontend/src/components/pipeline/PipelineBuilder.tsx:102-103 | the editor's summarise defaults are the service's own |
| BuilderBridge.AddedStepAsRun | frontend/src/components/pipeline/PipelineBuilder.tsx:67-76 | a step just added in the editor is run by the service with the editor's defaults as the service reads them (medium/paragraph, English, informative style, the generic extraction prompt) and keeps its id; a new translate step is never refused |

## Left out

- **Text generation.** The Groq `generateText` client is a parameter, either a `Generator` or an `Oracle` indexed by step. A prompt is reduced to the values it embeds; the fixed wording around them is not modelled.
- **Clock.** `Date.now()` and `new Date().toISOString()` are parameters:
  - step durations are a function of the step index;
  - the total time and the creation stamp are plain values.
  The model does not relate the total time to the step durations.
- **JSON parsing.** `JSON.parse` is a parameter that returns a value or `None` for a SyntaxError. JSON numbers are integers, since no property of the core depends on fractions.
- **API key.** The constructor's check for `GROQ_API_KEY` and its console warning are environment I/O.
- **Async execution.** The model does not cover async scheduling, concurrent requests, or the persistence, routing and authentication around the core.
- **Request bodies.** The request body is a JSON object, given as a map from keys to values. Bodies that are not objects are not modelled.
- **From JSON to typed steps.** The controller hands the checked JSON steps to the service, which reads them as typed steps. That conversion is not modelled:
  - `Controller.ExecuteResponse` takes the service as a parameter;
  - `Controller.EngineFailureStatus` connects the two through a precondition.
- **Config value types.** A step config holds only string values and a list of keywords. A value of another type (a number as a target language, say) reaching a handler is not modelled.
- **Steps applied from synthesis.** frontend/src/components/pipeline/ChatInterface.tsx copies each synthesised step's config into the editor's list as parsed, so such a step can carry keywords or any other field. That component is not part of this model; `BuilderBridge` covers steps built by `Builder.AddStep` and `Builder.SaveStepConfig`.
- Json.Display: a number is rendered by its decimal digits. JavaScript numbers are doubles, so from 10^21 on `${n}` switches to exponent notation; the model's numbers are unbounded integers.
- **React state.** `onStepsChange` and the React state around the editor are not modelled: each editor operation returns the new list. `configureStep` only opens a dialog and is not modelled.
- Builder.HandleDragEnd: requires the dragged id to be on the list. The drag library only reports drags of the items rendered from that list, so the missing-item case does not arise.
