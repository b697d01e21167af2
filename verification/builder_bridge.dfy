/**
 * What the service reads from a step built in the editor. The editor's
 * defaults (frontend/src/components/pipeline/PipelineBuilder.tsx) and the
 * service's (backend/src/services/aiService.ts) were written apart and
 * disagree; the lemmas here state how, without reconciling them.
 */
module BuilderBridge {
  import opened Wrappers
  import opened Generation
  import Builder
  import StepExecutor
  import Languages

  /** The `type` string an editor step carries. */
  function KindName(kind: Builder.StepType): (name: string)
    ensures StepExecutor.IsKnownType(name)
  {
    match kind
    case Summarize => "summarize"
    case Translate => "translate"
    case Rewrite => "rewrite"
    case Extract => "extract"
  }

  /**
   * The config of a step built by the editor's own operations (`AddStep`,
   * `SaveStepConfig`), as the service reads it: `tone` and `extractType` have
   * no reader there, and the editor's config has no `keywords`.
   */
  function ServiceConfig(c: Builder.Config): StepExecutor.StepConfig {
    StepExecutor.StepConfig(c.length, c.format, c.targetLanguage, c.style, None)
  }

  /** A step built by the editor, as the service receives it. */
  function ServiceStep(s: Builder.BuilderStep): StepExecutor.Step {
    StepExecutor.Step(s.id, KindName(s.kind), ServiceConfig(s.config))
  }

  /**
   * A translate step added in the editor goes to English, the editor's
   * default; the service's own default, Spanish, applies only to a config
   * without a target language.
   */
  lemma TranslateDefaultsDiffer(input: string)
    ensures StepExecutor.TranslateRequest(input, ServiceConfig(Builder.DefaultConfig(Builder.Translate)))
            == TranslatePrompt("English", input)
    ensures StepExecutor.TranslateRequest(input, ServiceConfig(Builder.EmptyConfig))
            == TranslatePrompt("Spanish", input)
  {
  }

  /**
   * The editor's rewrite default asks for an informative style, not the
   * service's professional one, and its tone never reaches the prompt.
   */
  lemma RewriteReadsOnlyStyle(input: string, c: Builder.Config, tone: Option<string>)
    ensures StepExecutor.RewriteRequest(input, ServiceConfig(Builder.DefaultConfig(Builder.Rewrite)))
            == RewritePrompt("informative", input)
    ensures StepExecutor.RewriteRequest(input, ServiceConfig(c.(tone := tone)))
            == StepExecutor.RewriteRequest(input, ServiceConfig(c))
  {
  }

  /**
   * Whatever extraction type is chosen in the editor, the service sends the
   * generic extraction prompt: it reads only keywords, which the editor
   * never sets.
   */
  lemma ExtractIgnoresExtractType(input: string, c: Builder.Config)
    ensures StepExecutor.ExtractRequest(input, ServiceConfig(c)) == ExtractPrompt(None, input)
  {
  }

  /** The summarise defaults agree on both sides. */
  lemma SummarizeDefaultsAgree(input: string)
    ensures StepExecutor.SummarizeRequest(input, ServiceConfig(Builder.DefaultConfig(Builder.Summarize)))
            == StepExecutor.SummarizeRequest(input, StepExecutor.NoConfig)
  {
  }

  /**
   * A step just added in the editor, as the service runs it: its prompt
   * carries the editor's defaults as the service reads them, and a new
   * translate step is never refused, since English is on the allow-list.
   */
  lemma AddedStepAsRun(steps: seq<Builder.BuilderStep>, kind: Builder.StepType, now: nat, input: string)
    ensures var added := Builder.AddStep(steps, kind, now)[|steps|];
            var s := ServiceStep(added);
            && s.id == added.id
            && !StepExecutor.IsRestricted(s)
            && StepExecutor.PromptFor(s, input)
               == match kind
                  case Summarize => SummarizePrompt("medium", "paragraph", input)
                  case Translate => TranslatePrompt("English", input)
                  case Rewrite => RewritePrompt("informative", input)
                  case Extract => ExtractPrompt(None, input)
  {
    assert Languages.ValidateLanguage("English");
  }
}
