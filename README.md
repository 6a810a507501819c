# Pipelines, modelled in Dafny

The Pipelines library passes one value through an ordered list of typed steps.
Each step declares an input type and an output type, and receives the value as
an erased `object`.
Before anything runs, `Pipeline.Execute<TInput, TResult>` validates the type
chain, then threads the value through the steps one after another, then casts
the final value to `TResult`.
Steps are usually made with a step builder (`AStep.ThatExecutes(...)`), which
wraps a function with named preconditions and postconditions.
The built `TraceableAsyncStep` checks every precondition, runs the function,
checks every postcondition, and reports all failed checks by name.
A pipeline builder (`APipeline.WithSteps(...)`) may push one logger into
every step builder.
Each step's input and output types are read by reflection, from the first
`Step<TIn, TOut>`-like type among its base types.
Those answers are memoised in two process-wide dictionaries.

The model has these modules:

- `Values` (values.dfy): type tags, the erased values, the failures, and the cast `(T) x`.
  Assignability (`sup.IsAssignableFrom(sub)`) is a parameter `(Type, Type) -> bool`.
- `TraceableSteps` (traceable_step.dfy): the checked step.
  Its `Process` is the precheck, then the function, then the postcheck.
- `Steps` (step.dfy): a step is a built traceable step or a hand-written `Step<TIn, TOut>`.
  Its erased `Execute` casts, then processes.
- `StepBuilders` (step_builder.dfy): the immutable step builder and the `AStep` factories.
- `Pipelines` (pipeline.dfy): the pipeline value.
  It has the validation specification `Validation` and the execution specification `Execution`.
  The methods `ValidatePipeline`, `EnsureStepsChain` and `Execute` keep the source's loops and are proved against those specifications.
- `PipelineBuilders` (pipeline_builder.dfy): the pipeline builder and its logger push.
- `StepTypes` (step_types.dfy): the step-type lookup.
  It works over a finite, acyclic type hierarchy (a map with a depth measure).
  The memoising dictionaries are the class `StepTypeCache`, with two map fields that only grow.
- `Scenarios` (scenarios.dfy): the repository's test steps (`ReverseString`, `IntToString`) and its test pipelines, stated as lemmas.

An empty pipeline has no identity case.
`EnsureFirstStepCanProcessPipelineInput` calls `_steps.First()` (Pipelines/Pipeline.cs:65), which throws on an empty sequence.
So validating or executing an empty pipeline fails with `InvalidOperation` (`Pipelines.EmptyPipelineFails`).

## Model

| member | source | states |
|---|---|---|
| Values.Cast | Pipelines/Step.cs:7-8 | a successful cast returns the value itself; it succeeds exactly when the value is null and the target is not a value type, or the target is assignable from the value's runtime type |
| TraceableSteps.FailedNames | Pipelines/TraceableAsyncStep.cs:58-60 | no more names than checks; no name at all exactly when every check holds |
| TraceableSteps.FailedNamesAppend | Pipelines/TraceableAsyncStep.cs:58-60 | the names failed by `a + b` are those failed by `a` followed by those failed by `b` (append order, no short-circuit) |
| TraceableSteps.FailedNamesSound | Pipelines/TraceableAsyncStep.cs:58-60 | every reported name belongs to a check that fails on the value |
| TraceableSteps.FailedNamesComplete | Pipelines/TraceableAsyncStep.cs:58-60 | every check that fails has its name reported |
| TraceableSteps.PreconditionMessage | Pipelines/TraceableAsyncStep.cs:63-64 | the message is the step name, then ": The following Preconditions were not met: ", then the failed names joined by ", ", then ", aborting." |
| TraceableSteps.PostconditionMessage | Pipelines/TraceableAsyncStep.cs:77-78 | the message is the step name, then ": The following Postconditions were not met: ", then the failed names joined by ", ", then ", aborting." |
| TraceableSteps.PreconditionAndPostconditionMessagesDiffer | Pipelines/TraceableAsyncStep.cs:63-64 | for the same step, a precondition message never equals a postcondition message, whatever names failed |
| TraceableSteps.Precheck | Pipelines/TraceableAsyncStep.cs:56-68 | passes exactly when every precondition holds of the input |
| TraceableSteps.Postcheck | Pipelines/TraceableAsyncStep.cs:70-82 | passes exactly when every postcondition holds of the output |
| TraceableSteps.Process | Pipelines/TraceableAsyncStep.cs:37-54 | succeeds exactly when all preconditions hold, the function succeeds and all postconditions hold of its output, and then returns that output unchanged; otherwise it fails with the precondition message listing the failed names, or the function's own failure, or the postcondition message listing the failed names, in that order of precedence |
| TraceableSteps.PreconditionFailureSkipsFunction | Pipelines/TraceableAsyncStep.cs:43-46 | when a precondition fails, replacing the wrapped function changes nothing, so the function is never run |
| TraceableSteps.UncheckedStepIsItsFunction | Pipelines/TraceableAsyncStep.cs:37-54 | with empty check lists a step returns exactly what its function returns |
| TraceableSteps.ProcessIgnoresLogging | Pipelines/TraceableAsyncStep.cs:39-52 | the logger and the two identifier functions never change a step's result or failure |
| Steps.Execute | Pipelines/Step.cs:7-8 | a failed cast to the step's input type is the step's failure; after a successful cast the input itself is handed to the step's `Process` |
| StepBuilders.DefaultIdentifier | Pipelines/AStep.cs:19-20 | prints a non-null value with `ToString()`, and null as `"<type name>: null"` |
| StepBuilders.ThatExecutes | Pipelines/AStep.cs:12-20 | a fresh builder holds the given function and the types `TIn` and `TOut`, has no checks and no logger, is named after the function's method, and its identifiers print the value, or `"<type name>: null"` for null |
| StepBuilders.ThatExecutesOn | Pipelines/AStep.cs:9-10 | the one-type factory is the two-type factory with the same type twice |
| StepBuilders.WithPrecondition | Pipelines/AsyncStepBuilder.cs:30-31 | the precondition list grows by one, the old conditions keep their order, the new check is last, and every other field is unchanged |
| StepBuilders.WithPostcondition | Pipelines/AsyncStepBuilder.cs:33-34 | the postcondition list grows by one, the old conditions keep their order, the new check is last, and every other field is unchanged |
| StepBuilders.AssumingThat | PipelinesTest/Unit/AsyncStepTest.cs:37-38 | adds a precondition exactly as WithPrecondition does |
| StepBuilders.Named | PipelinesTest/LoggerTest.cs:38 | replaces the name and leaves every other field as it was |
| StepBuilders.LoggingTo | Pipelines/IStepBuilder.cs:8 | replaces the logger and leaves every other field as it was |
| StepBuilders.WithoutLogging | PipelinesTest/LoggerTest.cs:20 | is LoggingTo with a null logger |
| StepBuilders.Build | Pipelines/AsyncStepBuilder.cs:24-28 | the built step is a traceable step with the builder's types, function, name, check lists, logger and input and output identifiers |
| StepBuilders.FreshStepRunsItsFunction | Pipelines/AStep.cs:12-20 | executing a step built straight from the factory is the cast to its input type followed by the function |
| StepBuilders.WithPreconditionReportsInOrder | Pipelines/AsyncStepBuilder.cs:30-31 | a new precondition's name is appended to the failure list exactly when it fails, after the earlier names |
| StepBuilders.WithPostconditionReportsInOrder | Pipelines/AsyncStepBuilder.cs:33-34 | a new postcondition's name is appended to the failure list exactly when it fails, after the earlier names |
| StepBuilders.TwoFailedPreconditionsInAppendOrder | PipelinesTest/AsyncStepTest.cs:24-35 | two failing preconditions are reported in the order they were added, and the function does not run |
| Pipelines.Empty | Pipelines/Pipeline.cs:13 | the parameterless constructor gives a pipeline with no steps |
| Pipelines.FromBuilders | Pipelines/Pipeline.cs:18-19 | the builder constructor builds every builder, one step per builder, in the given order |
| Pipelines.Add | Pipelines/Pipeline.cs:85-86 | the new pipeline is the old steps, in place, followed by the new step |
| Pipelines.AddRange | Pipelines/Pipeline.cs:88-89 | the new pipeline is the old steps, in place, followed by the new steps in order |
| Pipelines.AddRangeIsRepeatedAdd | Pipelines/Pipeline.cs:85-89 | AddRange gives the same pipeline as adding the steps one at a time, left to right |
| Pipelines.FirstBrokenLink | Pipelines/Pipeline.cs:47-61 | the result is the smallest index from the start point whose successor cannot take its output; none exactly when every later pair links |
| Pipelines.ValidationSucceedsIff | Pipelines/Pipeline.cs:40-83 | validation passes exactly when there is a step, the first step accepts `TInput`, `TResult` accepts the last step's output, and every adjacent pair links |
| Pipelines.ValidationReportsFirstFailure | Pipelines/Pipeline.cs:40-45 | the first-step check is reported before the last-step check, each with its own mismatch |
| Pipelines.ValidationReportsFirstBrokenLink | Pipelines/Pipeline.cs:47-61 | pair `i` is reported exactly when both end checks pass, pair `i` is broken and every earlier pair links |
| Pipelines.EnsureStepsChain | Pipelines/Pipeline.cs:47-61 | the loop passes exactly when every adjacent pair links; otherwise it reports the smallest broken index with that pair's produced and expected types |
| Pipelines.ValidatePipeline | Pipelines/Pipeline.cs:40-45 | the three checks, in order, return exactly the validation specification |
| Pipelines.RunAppend | Pipelines/Pipeline.cs:32-35 | running `a + b` is running `a`, then `b` on its result; a failure in `a` ends the run |
| Pipelines.Execute | Pipelines/Pipeline.cs:27-38 | the loop returns exactly the execution specification: validate, fold the value through the steps, cast to `TResult` |
| Pipelines.SingleStepPipeline | Pipelines/Pipeline.cs:27-38 | a one-step pipeline whose step accepts the input type and produces the output type runs that step, then casts its result to the output type |
| Pipelines.EmptyPipelineFails | Pipelines/Pipeline.cs:65 | an empty pipeline fails with `InvalidOperation` for every input and every pair of types |
| Pipelines.ValidationFailureRunsNoStep | Pipelines/Pipeline.cs:29-35 | when validation fails, execution fails with that error, whatever the steps would compute |
| Pipelines.SameSignatureValidation | Pipelines/Pipeline.cs:40-83 | validation depends only on the steps' declared types |
| Pipelines.SameSignatureBrokenLink | Pipelines/Pipeline.cs:47-61 | the first broken pair depends only on the steps' declared types |
| Pipelines.RunAfterAdd | Pipelines/Pipeline.cs:85-86 | an added step runs last, on what the old steps produced |
| Pipelines.RunEquivalent | Pipelines/Pipeline.cs:32-35 | steps that compute the same results fold to the same result |
| Pipelines.EquivalentExecution | Pipelines/Pipeline.cs:27-38 | pipelines with the same declared types and step results execute to the same result or failure |
| PipelineBuilders.WithSteps | Pipelines/APipeline.cs:5-6 | keeps the step builders in the given order, with a null logger |
| PipelineBuilders.LoggingTo | Pipelines/PipelineBuilder.cs:20-21 | keeps the same step builders and sets the logger |
| PipelineBuilders.Build | Pipelines/PipelineBuilder.cs:23-26 | one step per step builder, in order, each built after the pipeline's logger, if any, has been pushed into it |
| PipelineBuilders.BuildWithoutLogger | Pipelines/PipelineBuilder.cs:23-26 | without a logger, building is the builder constructor of Pipeline applied to the step builders as they are |
| PipelineBuilders.BuildPushesLogger | Pipelines/PipelineBuilder.cs:25 | with a logger, every built step logs to it, whatever logger its builder had |
| PipelineBuilders.LoggerDoesNotChangeExecution | Pipelines/PipelineBuilder.cs:23-26 | setting or clearing the logger never changes what the built pipeline returns or how it fails |
| PipelineBuilders.Execute | Pipelines/PipelineBuilder.cs:31-32 | is the execution of the built pipeline |
| PipelineBuilders.ExecuteSame | Pipelines/PipelineBuilder.cs:28-29 | is Execute with the same type as input and output |
| StepTypes.BaseChain | Pipelines/PipelineExtension.cs:31-37 | the chain starts at the type, each next type is the base type of the one before, and it ends at a type without a base type |
| StepTypes.BaseChainHead | Pipelines/PipelineExtension.cs:31-37 | a chain goes on past its first type exactly when that type has a base type, which then comes second |
| StepTypes.BaseChainUnique | Pipelines/PipelineExtension.cs:31-37 | there is only one such chain from a given type |
| StepTypes.GetBaseTypes | Pipelines/PipelineExtension.cs:31-37 | the loop yields a base chain of the type |
| StepTypes.IsStep | Pipelines/PipelineExtension.cs:25-29 | holds exactly when the type's name starts with "Step", it is known to the hierarchy, implements IStep, is abstract and has exactly two type arguments |
| StepTypes.FirstStepIndex | Pipelines/PipelineExtension.cs:22-29 | the index found satisfies IsStep and no earlier index does; none exactly when no type satisfies IsStep |
| StepTypes.StepTypeIsFirstStepInChain | Pipelines/PipelineExtension.cs:22-23 | the step type is the first type of the base chain satisfying IsStep, and the lookup fails exactly when no type of the chain does |
| StepTypes.GetStepType | Pipelines/PipelineExtension.cs:22-23 | walking the base types and taking the first step type returns exactly the specification |
| StepTypes.TraceableStepTypes | Pipelines/PipelineExtension.cs:13-20 | for a traceable step deriving from an abstract `Step<I, O>` that implements IStep, the input lookup gives I and the output lookup gives O |
| StepTypes.StepTypeCache.constructor | Pipelines/PipelineExtension.cs:10-17 | both caches start empty |
| StepTypes.StepTypeCache.GetInputType | Pipelines/PipelineExtension.cs:13-14 | returns the uncached answer; afterwards the step type is a key, existing entries are kept unchanged, the keys grow by exactly the step type, and the output cache is untouched |
| StepTypes.StepTypeCache.GetOutputType | Pipelines/PipelineExtension.cs:19-20 | returns the uncached answer; afterwards the step type is a key, existing entries are kept unchanged, the keys grow by exactly the step type, and the input cache is untouched |
| Scenarios.Reverse | PipelinesTest/TestStep.cs:11-12 | the reversed string has the same length, with character `k` taken from position `n - 1 - k` |
| Scenarios.ReverseReverse | PipelinesTest/TestStep.cs:11-12 | reversing twice gives the original string |
| Scenarios.ReverseString | PipelinesTest/TestStep.cs:9-13 | a hand-written `Step<string, string>` that reverses every string and fails on null |
| Scenarios.IntToString | PipelinesTest/TestStep.cs:15-19 | a hand-written `Step<int, string>` that prints every integer in decimal |
| Scenarios.Upper | PipelinesTest/Unit/AsyncStepTest.cs:16 | upper-casing keeps the length and maps each character on its own |
| Scenarios.ReverseTwiceIsIdentity | PipelinesTest/PipelineTest.cs:13-19 | two ReverseString steps return every input string unchanged |
| Scenarios.UpperCaseStep | PipelinesTest/Unit/AsyncStepTest.cs:15-19 | a built ToUpperInvariant step turns "test" into "TEST" |
| Scenarios.TwoNamesJoined | Pipelines/TraceableAsyncStep.cs:63-64 | the failed names NotNull and NotEmpty appear in a message as "NotNull, NotEmpty" |
| Scenarios.ChecksAllPreconditions | PipelinesTest/Unit/AsyncStepTest.cs:35-46 | NotNull and NotEmpty preconditions on null fail with the precondition message naming both, in order |
| Scenarios.ChecksAllPostconditions | PipelinesTest/Unit/AsyncStepTest.cs:52-63 | NotNull and NotEmpty postconditions on a null result fail with the postcondition message naming both, in order |
| Scenarios.NullsPassThroughLoggingStep | PipelinesTest/LoggerTest.cs:59-64 | a logging step without checks returns null for a null input |
| Scenarios.InputTypeIsChecked | PipelinesTest/Unit/ValidationTest.cs:16-18 | `[ReverseString]` as `<int, string>` fails on the first step's input type |
| Scenarios.OutputTypeIsChecked | PipelinesTest/Unit/ValidationTest.cs:24-26 | `[ReverseString]` as `<string, int>` fails on the last step's output type |
| Scenarios.InternalTypesAreChecked | PipelinesTest/Unit/ValidationTest.cs:32-34 | `[ReverseString, IntToString]` as `<string, string>` fails on pair 0, string against int |
| Scenarios.MixedPipelineValidates | PipelinesTest/Performance/CacheTest.cs:17-22 | the four-step int-to-string pipeline validates as `<int, string>` |
| Scenarios.RepeatedInputTypeLookup | Pipelines/PipelineExtension.cs:13-14 | two cache lookups of the same step give the same, uncached answer |

## Left out

- Logging: the `ILogger` calls and their text are not modelled. A logger is a field that no result depends on (`TraceableSteps.ProcessIgnoresLogging`).
- JSON serialisation of inputs and outputs for trace logs is not modelled; its output feeds only log lines, but it can throw (next line).
- TraceableSteps.ProcessIgnoresLogging and PipelineBuilders.LoggerDoesNotChangeExecution hold only because the modelled values (null, strings, integers) always print and serialise. With a logger attached, `Process` calls `_inputIdentifier(input)` and `JsonConvert.SerializeObject(...)` without catching (Pipelines/TraceableAsyncStep.cs:39-41, 47-49). A throw there would escape the step, and the model does not represent it.
- TraceableSteps.FailedNames: a check is a total `Value -> bool`. In the source, a check that throws (for example `str => str.Length > 0` on null) stops `Where(...).ToList()` before the later checks run and escapes with its own exception (Pipelines/TraceableAsyncStep.cs:58-60, 72-74). The model does not represent this.
- A step that implements `IStep` without deriving from `Step<,>` cannot be represented by the `Steps.Step` datatype. For such a step, validation throws `InvalidOperationException` from `First(IsStep)` (Pipelines/PipelineExtension.cs:23). `StepTypes.StepTypeOf` captures the lookup failure for a class hierarchy, but pipelines in the model carry only steps with declared types.
- Steps.Custom: a hand-written step carries one pair of type tags, which stands both for what validation's step-type lookup reads (the type arguments of the first abstract `Step…`-named base implementing `IStep`, Pipelines/PipelineExtension.cs:14, 20, 23-29) and for the `TIn` that `IStep.Execute` casts to (Pipelines/Step.cs:8). A step whose first such base reorders or replaces `Step<,>`'s type arguments (`abstract class StepSwap<A, B> : Step<B, A>`, `class Foo : StepSwap<int, string>`) cannot be represented: in the source it passes validation as int to string and then throws `InvalidCastException` at the cast, while the model has no step with differing lookup and cast types.
- `Task` and `async`: steps are plain functions that return a value or a failure.
- Thread safety of `ConcurrentDictionary` is not modelled. The cache is a single-threaded object, and a racing `GetOrAdd` that calls its factory twice is not represented.
- Reflection: `Type`, `BaseType`, `GetInterface` and `IsAbstract` are replaced by a finite hierarchy map.
  The built step's types are carried as tags on the step. `StepTypes.TraceableStepTypes` proves that the reflective lookup would read the same tags.
  Validation reads those tags directly rather than going through the cache.
- Values: only strings, 32-bit integers (as unbounded `int`) and null are modelled, and only `Int32` is a value type. Casts of user classes follow the given assignability relation.
- Validation messages: the model keeps the mismatched types as a structured `Mismatch`, not the `FullName` text of the exception message.
- The older internal `TraceableAsyncStep` in Pipelines/AsyncStepBuilder.cs:37-65 is a superseded revision, with no postcondition check and a different message. The step in Pipelines/TraceableAsyncStep.cs is modelled instead.
- The three-field builder constructor in Pipelines/AsyncStepBuilder.cs:14-22 disagrees with the seven-field call in Pipelines/AStep.cs:13-20. The builder carries the seven fields the factory passes.
- StepBuilders.AssumingThat, StepBuilders.Named, StepBuilders.LoggingTo, StepBuilders.WithoutLogging: the source does not show their C# bodies; they are modelled as the appends and replacements their callers rely on.
- The unnamed overloads `AssumingThat(check)` and `AssumingAfter(check)` are not modelled, because the name they record is not visible.
- Scenarios.Upper: only the ASCII letters are upper-cased. Unicode case mapping is not modelled.
- Scenarios.Reverse: Dafny characters are Unicode scalar values, while `input.Reverse()` reverses UTF-16 code units (PipelinesTest/TestStep.cs:12). On strings with supplementary characters the source splits each surrogate pair, reversing its two halves, and the model does not.
- Scenarios.ReverseString: on null it fails with `ArgumentNullException`, as `Enumerable.Reverse` does.
- Scenarios.IntToString: the current culture is not modelled; it prints with `DecimalString`, the invariant-culture decimal form, so under a culture such as sv-SE a negative number can print with another minus sign (U+2212) than the model's `-`. `DisplayString` in `StepBuilders.DefaultIdentifier` has the same gap, which affects only log text.
- Null references are not modelled: a `Steps.Step`, `TraceableSteps.Check`, `TraceableSteps.Delegate`, builder or `string` cannot be null here. So the model has no counterpart for `Pipeline.Add(null)` or a null step given to the constructors, which is stored and then makes validation throw `NullReferenceException` from `step.GetType()` (Pipelines/PipelineExtension.cs:23, reached from Pipelines/Pipeline.cs:51-52, 65, 76); a null builder in the builder constructors (Pipelines/Pipeline.cs:19, 25); a null check passed to `AssumingThat`/`AssumingAfter` (Pipelines/TraceableAsyncStep.cs:59, 73); a null `_function` (Pipelines/TraceableAsyncStep.cs:46); or a null check name, which `string.Join` prints as an empty string (Pipelines/TraceableAsyncStep.cs:64, 78).
- Timing: the cache performance tests compare elapsed ticks and cannot be stated.
- The demo workset pipeline in the example project and tests depends on the clock and on fresh GUIDs, so it is not modelled.
