/**
 * `executePipeline` of the AI service (backend/src/services/aiService.ts):
 * the steps run strictly in order, each fed the previous step's output; one
 * outcome is appended per finished step; the first failure stops the run,
 * marks it failed and is re-thrown.
 */
module PipelineEngine {
  import opened Wrappers
  import opened Strings
  import opened Generation
  import opened StepExecutor
  import Languages

  datatype Status = Running | Completed | Failed

  /** One entry of `execution.outputs`. */
  datatype StepOutput = StepOutput(stepId: string, output: string, processingTime: nat)

  /** The `PipelineExecution` record the service builds and updates during a run. */
  datatype Execution = Execution(
    pipelineId: string,
    input: string,
    outputs: seq<StepOutput>,
    totalProcessingTime: nat,
    status: Status,
    createdAt: string)

  /**
   * The generator as seen during a run: `gen(i)` answers the prompts of
   * step `i`, so one prompt may get different answers at different steps.
   */
  type Oracle = nat -> Generator

  /** Elapsed milliseconds of step `i`, as measured with `Date.now()`. */
  type Durations = nat -> nat

  /** A step executor: a step, its input and the generator give the step's output or error. */
  type Executor = (Step, string, Generator) -> Result<string, string>

  /**
   * What a run depends on besides its steps and input: the step executor
   * (`ExecuteStep` for the service), the generator's answers and the clock.
   */
  datatype Context = Context(exec: Executor, gen: Oracle, durations: Durations)

  /** The context of the service's own runs. */
  function Service(gen: Oracle, durations: Durations): Context {
    Context(ExecuteStep, gen, durations)
  }

  /** The outcomes of a run and the message of the error that stopped it, if any. */
  datatype Trace = Trace(outputs: seq<StepOutput>, failure: Option<string>)

  function Prepend(done: seq<StepOutput>, t: Trace): Trace {
    Trace(done + t.outputs, t.failure)
  }

  /**
   * Reference semantics of a run of `steps`, the first of which is step
   * number `at` of the pipeline: each step gets the previous output.
   */
  function Run(steps: seq<Step>, input: string, ctx: Context, at: nat): Trace
    decreases |steps|
  {
    if steps == [] then Trace([], None)
    else
      match ctx.exec(steps[0], input, ctx.gen(at))
      case Err(e) => Trace([], Some(e))
      case Ok(out) =>
        Prepend([StepOutput(steps[0].id, out, ctx.durations(at))], Run(steps[1..], out, ctx, at + 1))
  }

  /** The input step `k` receives: the pipeline input for the first step, else the previous output. */
  function InputOf(input: string, outputs: seq<StepOutput>, k: nat): string
    requires k <= |outputs|
  {
    if k == 0 then input else outputs[k - 1].output
  }

  /** What the caller of `executePipeline` receives: the record, or the re-thrown error. */
  function Outcome(execution: Execution, thrown: Option<string>): Result<Execution, string> {
    if thrown.Some? then Err(thrown.value) else Ok(execution)
  }

  /** The caller-visible result of a run, as a function of its inputs. */
  function PipelineResult(steps: seq<Step>, input: string, gen: Oracle, durations: Durations,
                          elapsed: nat, createdAt: string): Result<Execution, string>
  {
    var t := Run(steps, input, Service(gen, durations), 0);
    if t.failure.Some? then Err(t.failure.value)
    else Ok(Execution("backend-pipeline", input, t.outputs, elapsed, Completed, createdAt))
  }

  /**
   * `executePipeline`. It returns the final state of the execution record
   * and, when a step failed, the error it re-throws; a caller that sees an
   * error does not receive the record (see `Outcome`).
   */
  method ExecutePipeline(steps: seq<Step>, input: string, gen: Oracle, durations: Durations,
                         elapsed: nat, createdAt: string)
    returns (execution: Execution, thrown: Option<string>)
    ensures var t := Run(steps, input, Service(gen, durations), 0);
            && execution.outputs == t.outputs
            && thrown == t.failure
            && execution.status == (if t.failure.None? then Completed else Failed)
    ensures execution.pipelineId == "backend-pipeline" && execution.input == input
    ensures execution.totalProcessingTime == elapsed && execution.createdAt == createdAt
    ensures Outcome(execution, thrown) == PipelineResult(steps, input, gen, durations, elapsed, createdAt)
  {
    execution := Execution("backend-pipeline", input, [], 0, Running, createdAt);
    thrown := None;
    var current := input;
    var i := 0;
    while i < |steps|
      invariant 0 <= i <= |steps|
      invariant execution == Execution("backend-pipeline", input, execution.outputs, 0, Running, createdAt)
      invariant Prepend(execution.outputs, Run(steps[i..], current, Service(gen, durations), i))
                == Run(steps, input, Service(gen, durations), 0)
    {
      var result := ExecuteStep(steps[i], current, gen(i));
      assert steps[i..][1..] == steps[i + 1..];
      if result.Err? {
        execution := execution.(status := Failed, totalProcessingTime := elapsed);
        thrown := Some(result.error);
        return;
      }
      var entry := StepOutput(steps[i].id, result.value, durations(i));
      assert execution.outputs + [entry] + Run(steps[i + 1..], result.value, Service(gen, durations), i + 1).outputs
             == execution.outputs + ([entry] + Run(steps[i + 1..], result.value, Service(gen, durations), i + 1).outputs);
      execution := execution.(outputs := execution.outputs + [entry]);
      current := result.value;
      i := i + 1;
    }
    execution := execution.(totalProcessingTime := elapsed, status := Completed);
  }

  /**
   * A run that finishes has one outcome per step, in step order; a failed
   * run has outcomes for the steps before the failing one only. Each
   * outcome carries its step's id and duration.
   */
  lemma {:induction false} RunShape(steps: seq<Step>, input: string, ctx: Context, at: nat)
    ensures var t := Run(steps, input, ctx, at);
            && (t.failure.None? ==> |t.outputs| == |steps|)
            && (t.failure.Some? ==> |t.outputs| < |steps|)
            && forall k :: 0 <= k < |t.outputs| ==>
                 k < |steps| && t.outputs[k].stepId == steps[k].id
                 && t.outputs[k].processingTime == ctx.durations(at + k)
    decreases |steps|
  {
    if steps != [] {
      var r := ctx.exec(steps[0], input, ctx.gen(at));
      if r.Ok? {
        RunShape(steps[1..], r.value, ctx, at + 1);
      }
    }
  }

  /** Outcome `k` of a run is what step `k` produced on the input it received. */
  lemma {:induction false} RunOutputAt(steps: seq<Step>, input: string, ctx: Context, at: nat, k: nat)
    requires k < |Run(steps, input, ctx, at).outputs|
    ensures var t := Run(steps, input, ctx, at);
            k < |steps| && ctx.exec(steps[k], InputOf(input, t.outputs, k), ctx.gen(at + k)) == Ok(t.outputs[k].output)
    decreases k
  {
    var r := ctx.exec(steps[0], input, ctx.gen(at));
    var rest := Run(steps[1..], r.value, ctx, at + 1);
    if k > 0 {
      RunOutputAt(steps[1..], r.value, ctx, at + 1, k - 1);
      assert steps[k] == steps[1..][k - 1];
      assert at + k == (at + 1) + (k - 1);
      if k > 1 {
        assert Run(steps, input, ctx, at).outputs[k - 1] == rest.outputs[k - 2];
      }
    }
  }

  /** A failed run stopped at the step right after its last outcome, with that step's error. */
  lemma {:induction false} RunFailureAt(steps: seq<Step>, input: string, ctx: Context, at: nat)
    requires Run(steps, input, ctx, at).failure.Some?
    ensures var t := Run(steps, input, ctx, at);
            |t.outputs| < |steps|
            && ctx.exec(steps[|t.outputs|], InputOf(input, t.outputs, |t.outputs|), ctx.gen(at + |t.outputs|))
               == Err(t.failure.value)
    decreases |steps|
  {
    var r := ctx.exec(steps[0], input, ctx.gen(at));
    if r.Ok? {
      var rest := Run(steps[1..], r.value, ctx, at + 1);
      RunFailureAt(steps[1..], r.value, ctx, at + 1);
      var n := |rest.outputs|;
      assert steps[n + 1] == steps[1..][n];
      if n > 0 {
        assert Run(steps, input, ctx, at).outputs[n] == rest.outputs[n - 1];
      }
    }
  }

  /**
   * Chaining: step `k` is executed on the pipeline input when `k` is 0 and
   * on step `k - 1`'s output otherwise, and its outcome is what it produced;
   * when the run fails, the failure is the error of the step right after the
   * last outcome, run on that outcome.
   */
  lemma RunChaining(steps: seq<Step>, input: string, ctx: Context, at: nat)
    ensures var t := Run(steps, input, ctx, at);
            && (forall k :: 0 <= k < |t.outputs| ==>
                  k < |steps| && ctx.exec(steps[k], InputOf(input, t.outputs, k), ctx.gen(at + k)) == Ok(t.outputs[k].output))
            && (t.failure.Some? ==>
                  |t.outputs| < |steps|
                  && ctx.exec(steps[|t.outputs|], InputOf(input, t.outputs, |t.outputs|), ctx.gen(at + |t.outputs|))
                     == Err(t.failure.value))
  {
    var t := Run(steps, input, ctx, at);
    forall k | 0 <= k < |t.outputs|
      ensures k < |steps| && ctx.exec(steps[k], InputOf(input, t.outputs, k), ctx.gen(at + k)) == Ok(t.outputs[k].output)
    {
      RunOutputAt(steps, input, ctx, at, k);
    }
    if t.failure.Some? {
      RunFailureAt(steps, input, ctx, at);
    }
  }

  /**
   * Running `s1 + s2` is running `s1` and, if it did not fail, continuing
   * with `s2` on the last output; a failure in `s1` means no step of `s2`
   * is attempted.
   */
  lemma {:induction false} RunAppend(s1: seq<Step>, s2: seq<Step>, input: string, ctx: Context, at: nat)
    ensures var t1 := Run(s1, input, ctx, at);
            Run(s1 + s2, input, ctx, at)
            == if t1.failure.Some? then t1
               else Prepend(t1.outputs, Run(s2, InputOf(input, t1.outputs, |t1.outputs|), ctx, at + |s1|))
    decreases |s1|
  {
    if s1 == [] {
      assert s1 + s2 == s2;
    } else {
      assert (s1 + s2)[0] == s1[0];
      assert (s1 + s2)[1..] == s1[1..] + s2;
      var r := ctx.exec(s1[0], input, ctx.gen(at));
      if r.Ok? {
        var t1 := Run(s1, input, ctx, at);
        var rest := Run(s1[1..], r.value, ctx, at + 1);
        RunAppend(s1[1..], s2, r.value, ctx, at + 1);
        if rest.failure.None? {
          var tail := Run(s2, InputOf(r.value, rest.outputs, |rest.outputs|), ctx, at + 1 + |s1[1..]|);
          var head := StepOutput(s1[0].id, r.value, ctx.durations(at));
          assert [head] + (rest.outputs + tail.outputs) == ([head] + rest.outputs) + tail.outputs;
          assert InputOf(input, t1.outputs, |t1.outputs|) == InputOf(r.value, rest.outputs, |rest.outputs|);
        }
      }
    }
  }

  /** A run only consults the generator at its own step positions. */
  lemma {:induction false} SameAnswersSameRun(steps: seq<Step>, input: string, ctx: Context, other: Oracle, at: nat)
    requires forall i :: at <= i < at + |steps| ==> ctx.gen(i) == other(i)
    ensures Run(steps, input, ctx, at) == Run(steps, input, ctx.(gen := other), at)
    decreases |steps|
  {
    if steps != [] {
      var r := ctx.exec(steps[0], input, ctx.gen(at));
      if r.Ok? {
        SameAnswersSameRun(steps[1..], r.value, ctx, other, at + 1);
      }
    }
  }

  /**
   * Truncation: once a prefix of the steps fails, the steps after it change
   * nothing, and neither do the generator's answers during later steps.
   */
  lemma FailureStopsTheRun(steps: seq<Step>, later: seq<Step>, input: string, ctx: Context, other: Oracle)
    requires Run(steps, input, ctx, 0).failure.Some?
    requires forall i :: 0 <= i < |steps| ==> ctx.gen(i) == other(i)
    ensures Run(steps + later, input, ctx.(gen := other), 0) == Run(steps, input, ctx, 0)
  {
    SameAnswersSameRun(steps, input, ctx, other, 0);
    RunAppend(steps, later, input, ctx.(gen := other), 0);
  }

  /** An empty step list is not refused: the run completes with no outcomes. */
  lemma EmptyPipelineCompletes(input: string, gen: Oracle, durations: Durations, elapsed: nat, createdAt: string)
    ensures PipelineResult([], input, gen, durations, elapsed, createdAt)
            == Ok(Execution("backend-pipeline", input, [], elapsed, Completed, createdAt))
  {
  }

  /**
   * The service's run completes exactly when no step fails; it then holds
   * one outcome per step, with the step's id, in step order, and it keeps
   * the input as given.
   */
  lemma CompletedRunShape(steps: seq<Step>, input: string, gen: Oracle, durations: Durations,
                          elapsed: nat, createdAt: string)
    requires PipelineResult(steps, input, gen, durations, elapsed, createdAt).Ok?
    ensures var e := PipelineResult(steps, input, gen, durations, elapsed, createdAt).value;
            && e.status == Completed && e.input == input && |e.outputs| == |steps|
            && forall k :: 0 <= k < |steps| ==> e.outputs[k].stepId == steps[k].id
  {
    RunShape(steps, input, Service(gen, durations), 0);
  }

  /**
   * The error the service re-throws is, unchanged, the error of the step
   * right after the last recorded outcome, run on that outcome; that step
   * has a known type, since an unknown type never fails.
   */
  lemma ServiceFailureIsStepError(steps: seq<Step>, input: string, gen: Oracle, durations: Durations,
                                  elapsed: nat, createdAt: string)
    requires PipelineResult(steps, input, gen, durations, elapsed, createdAt).Err?
    ensures var t := Run(steps, input, Service(gen, durations), 0);
            var k := |t.outputs|;
            && k < |steps| && IsKnownType(steps[k].kind)
            && ExecuteStep(steps[k], InputOf(input, t.outputs, k), gen(k))
               == Err(PipelineResult(steps, input, gen, durations, elapsed, createdAt).error)
  {
    RunFailureAt(steps, input, Service(gen, durations), 0);
  }

  /**
   * A translate step to a language outside the allow-list stops the run:
   * the run fails at that step or earlier, and when every step before it
   * succeeded, the failure is that step's restriction message.
   */
  lemma RestrictedStepStopsRun(steps: seq<Step>, input: string, gen: Oracle, durations: Durations,
                               elapsed: nat, createdAt: string, k: nat)
    requires k < |steps| && IsRestricted(steps[k])
    ensures var t := Run(steps, input, Service(gen, durations), 0);
            && t.failure.Some? && |t.outputs| <= k
            && (|t.outputs| == k ==> t.failure == Some(Languages.RestrictedMessage(TargetLanguage(steps[k].config))))
    ensures PipelineResult(steps, input, gen, durations, elapsed, createdAt).Err?
  {
    var ctx := Service(gen, durations);
    var t := Run(steps, input, ctx, 0);
    RunShape(steps, input, ctx, 0);
    if k < |t.outputs| {
      // step k would have produced an outcome, but it never reaches the generator
      RunOutputAt(steps, input, ctx, 0, k);
      assert false;
    }
    if |t.outputs| == k {
      RunFailureAt(steps, input, ctx, 0);
    }
  }

  /**
   * A single rewrite step whose prompt is answered with "Hiya world!"
   * completes with exactly that output.
   */
  lemma RewriteScenario(gen: Oracle, durations: Durations, elapsed: nat, createdAt: string)
    requires gen(0)(RewritePrompt("casual", "Hello world")) == Generated("Hiya world!")
    ensures PipelineResult([Step("s1", "rewrite", NoConfig.(style := Some("casual")))], "Hello world",
                           gen, durations, elapsed, createdAt)
            == Ok(Execution("backend-pipeline", "Hello world", [StepOutput("s1", "Hiya world!", durations(0))],
                            elapsed, Completed, createdAt))
  {
    var step := Step("s1", "rewrite", NoConfig.(style := Some("casual")));
    assert !IsJsWhitespace("Hiya world!"[0]);
    var ctx := Service(gen, durations);
    assert ctx.exec(step, "Hello world", ctx.gen(0)) == Ok("Hiya world!");
    assert [step][1..] == [];
    assert Run([step][1..], "Hiya world!", ctx, 1) == Trace([], None);
    assert Run([step], "Hello world", ctx, 0).outputs == [StepOutput("s1", "Hiya world!", durations(0))];
  }
}
