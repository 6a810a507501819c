/**
 * PipelineBuilder: an immutable list of step builders plus an optional
 * pipeline-wide logger.  `Build` hands that logger to every step builder
 * before building it, so it replaces whatever logger a step had.
 */
module PipelineBuilders {
  import opened Values
  import opened TraceableSteps
  import opened Steps
  import StepBuilders
  import Pipelines

  datatype PipelineBuilder = PipelineBuilder(steps: seq<StepBuilders.StepBuilder>, logger: Option<Logger>)

  /** `APipeline.WithSteps(steps)`: the steps in the given order, with a null logger. */
  function WithSteps(steps: seq<StepBuilders.StepBuilder>): (pb: PipelineBuilder)
    ensures pb.steps == steps && pb.logger == None
  {
    PipelineBuilder(steps, None)
  }

  /** `LoggingTo(logger)`: the same steps with the given logger. */
  function LoggingTo(pb: PipelineBuilder, logger: Option<Logger>): (r: PipelineBuilder)
    ensures r.steps == pb.steps && r.logger == logger
  {
    pb.(logger := logger)
  }

  /** The step builder as `Build` sees it: with the pipeline's logger pushed in, if there is one. */
  function Prepared(pb: PipelineBuilder, b: StepBuilders.StepBuilder): StepBuilders.StepBuilder {
    if pb.logger.Some? then StepBuilders.LoggingTo(b, pb.logger) else b
  }

  /** `Build()`: one step per step builder, in order. */
  function Build(pb: PipelineBuilder): (p: Pipelines.Pipeline)
    ensures |p.steps| == |pb.steps|
    ensures forall i | 0 <= i < |pb.steps| :: p.steps[i] == StepBuilders.Build(Prepared(pb, pb.steps[i]))
  {
    Pipelines.Pipeline(seq(|pb.steps|, i requires 0 <= i < |pb.steps| => StepBuilders.Build(Prepared(pb, pb.steps[i]))))
  }

  /** Without a pipeline logger every step builder is built as it is. */
  lemma BuildWithoutLogger(pb: PipelineBuilder)
    requires pb.logger == None
    ensures Build(pb) == Pipelines.FromBuilders(pb.steps)
  {
  }

  /** With a pipeline logger every built step logs to it, whatever logger its builder had. */
  lemma BuildPushesLogger(pb: PipelineBuilder, logger: Logger)
    requires pb.logger == Some(logger)
    ensures forall i | 0 <= i < |Build(pb).steps| :: Build(pb).steps[i].traceable.logger == Some(logger)
  {
  }

  /** Attaching a logger never changes what a pipeline computes or how it fails. */
  lemma LoggerDoesNotChangeExecution(pb: PipelineBuilder, logger: Option<Logger>, input: Value,
                                     inType: Type, outType: Type, assignable: Assignable)
    ensures Pipelines.Execution(Build(LoggingTo(pb, logger)), input, inType, outType, assignable)
         == Pipelines.Execution(Build(pb), input, inType, outType, assignable)
  {
    var p, q := Build(LoggingTo(pb, logger)), Build(pb);
    forall i, v, a | 0 <= i < |p.steps|
      ensures Steps.Execute(p.steps[i], v, a) == Steps.Execute(q.steps[i], v, a)
    {
      var t := q.steps[i].traceable;
      assert p.steps[i].traceable == t.(logger := p.steps[i].traceable.logger);
      match Cast(v, InType(q.steps[i]), a)
      case Err(_) =>
      case Ok(w) => ProcessIgnoresLogging(t, p.steps[i].traceable.logger, t.inputIdentifier, t.outputIdentifier, w);
    }
    Pipelines.EquivalentExecution(p, q, input, inType, outType, assignable);
  }

  /** `Execute<TInput, TOutput>(input)`: `Build().Execute<TInput, TOutput>(input)`. */
  method Execute(pb: PipelineBuilder, input: Value, inType: Type, outType: Type, assignable: Assignable)
    returns (r: Result<Value>)
    ensures r == Pipelines.Execution(Build(pb), input, inType, outType, assignable)
  {
    r := Pipelines.Execute(Build(pb), input, inType, outType, assignable);
  }

  /** `Execute<T>(input)`: `Execute<T, T>(input)`. */
  method ExecuteSame(pb: PipelineBuilder, input: Value, t: Type, assignable: Assignable)
    returns (r: Result<Value>)
    ensures r == Pipelines.Execution(Build(pb), input, t, t, assignable)
  {
    r := Execute(pb, input, t, t, assignable);
  }
}
