/**
 * Pipeline: an immutable sequence of erased steps.  `ValidatePipeline`
 * checks, in this order, that the first step accepts the pipeline input
 * type, that the pipeline output type accepts the last step's output type,
 * and that every step accepts its predecessor's output type.  `Execute`
 * validates, then threads the value through the steps one after another and
 * casts the final value to the pipeline output type.
 */
module Pipelines {
  import opened Values
  import opened TraceableSteps
  import opened Steps
  import StepBuilders

  datatype Pipeline = Pipeline(steps: seq<Step>)

  /** `new Pipeline()`. */
  function Empty(): (p: Pipeline)
    ensures |p.steps| == 0
  {
    Pipeline([])
  }

  /** `new Pipeline(builders)`: every builder is built, in the given order. */
  function FromBuilders(builders: seq<StepBuilders.StepBuilder>): (p: Pipeline)
    ensures |p.steps| == |builders|
    ensures forall i | 0 <= i < |builders| :: p.steps[i] == StepBuilders.Build(builders[i])
  {
    Pipeline(seq(|builders|, i requires 0 <= i < |builders| => StepBuilders.Build(builders[i])))
  }

  /** `Add(step)`: a new pipeline with the step appended; the old steps keep their places. */
  function Add(p: Pipeline, step: Step): (r: Pipeline)
    ensures |r.steps| == |p.steps| + 1
    ensures r.steps[..|p.steps|] == p.steps && r.steps[|p.steps|] == step
  {
    Pipeline(p.steps + [step])
  }

  /** `AddRange(steps)`: a new pipeline with the steps appended in order. */
  function AddRange(p: Pipeline, steps: seq<Step>): (r: Pipeline)
    ensures |r.steps| == |p.steps| + |steps|
    ensures r.steps[..|p.steps|] == p.steps && r.steps[|p.steps|..] == steps
  {
    Pipeline(p.steps + steps)
  }

  /** Adding the steps one at a time, left to right. */
  function AddEach(p: Pipeline, steps: seq<Step>): Pipeline
    decreases |steps|
  {
    if steps == [] then p else AddEach(Add(p, steps[0]), steps[1..])
  }

  /** `AddRange` is the same as adding the steps one at a time. */
  lemma {:induction false} AddRangeIsRepeatedAdd(p: Pipeline, steps: seq<Step>)
    ensures AddRange(p, steps) == AddEach(p, steps)
    decreases |steps|
  {
    if steps != [] {
      AddRangeIsRepeatedAdd(Add(p, steps[0]), steps[1..]);
      assert p.steps + steps == (p.steps + [steps[0]]) + steps[1..];
    } else {
      assert p.steps + steps == p.steps;
    }
  }

  /** Step `i + 1` can process what step `i` produces. */
  predicate Linked(steps: seq<Step>, assignable: Assignable, i: nat)
    requires i + 1 < |steps|
  {
    assignable(InType(steps[i + 1]), OutType(steps[i]))
  }

  predicate Chained(steps: seq<Step>, assignable: Assignable) {
    forall i: nat | i + 1 < |steps| :: Linked(steps, assignable, i)
  }

  /** The smallest index `i >= from` whose pair `(i, i + 1)` is not linked, if any. */
  function FirstBrokenLink(steps: seq<Step>, assignable: Assignable, from: nat): (r: Option<nat>)
    ensures r.Some? ==>
      && from <= r.value && r.value + 1 < |steps|
      && !Linked(steps, assignable, r.value)
      && forall j: nat | from <= j < r.value :: Linked(steps, assignable, j)
    ensures r.None? ==> forall j: nat | from <= j && j + 1 < |steps| :: Linked(steps, assignable, j)
    decreases |steps| - from
  {
    if from + 1 >= |steps| then None
    else if !Linked(steps, assignable, from) then Some(from)
    else FirstBrokenLink(steps, assignable, from + 1)
  }

  /** What `ValidatePipeline<TInput, TResult>` throws, or Pass. */
  function Validation(p: Pipeline, input: Type, output: Type, assignable: Assignable): Outcome {
    if |p.steps| == 0 then
      Fail(InvalidOperation)
    else if !assignable(InType(p.steps[0]), input) then
      Fail(ValidationFailed(FirstStepInput(InType(p.steps[0]), input)))
    else if !assignable(output, OutType(p.steps[|p.steps| - 1])) then
      Fail(ValidationFailed(LastStepOutput(OutType(p.steps[|p.steps| - 1]), output)))
    else
      match FirstBrokenLink(p.steps, assignable, 0)
      case None => Pass
      case Some(i) => Fail(ValidationFailed(AdjacentSteps(i, OutType(p.steps[i]), InType(p.steps[i + 1]))))
  }

  /** Validation passes exactly when the pipeline is non-empty and its three conditions hold. */
  lemma ValidationSucceedsIff(p: Pipeline, input: Type, output: Type, assignable: Assignable)
    ensures Validation(p, input, output, assignable).Pass? <==>
      && |p.steps| > 0
      && assignable(InType(p.steps[0]), input)
      && assignable(output, OutType(p.steps[|p.steps| - 1]))
      && Chained(p.steps, assignable)
  {
    if && |p.steps| > 0
       && assignable(InType(p.steps[0]), input)
       && assignable(output, OutType(p.steps[|p.steps| - 1]))
    {
      var b := FirstBrokenLink(p.steps, assignable, 0);
      if b.Some? {
        assert !Linked(p.steps, assignable, b.value);
      }
    }
  }

  /**
   * The error names the first check that fails, in the order first step,
   * last step, adjacent pairs.
   */
  lemma ValidationReportsFirstFailure(p: Pipeline, input: Type, output: Type, assignable: Assignable)
    requires |p.steps| > 0
    ensures !assignable(InType(p.steps[0]), input) ==>
      Validation(p, input, output, assignable) == Fail(ValidationFailed(FirstStepInput(InType(p.steps[0]), input)))
    ensures assignable(InType(p.steps[0]), input) && !assignable(output, OutType(p.steps[|p.steps| - 1])) ==>
      Validation(p, input, output, assignable)
      == Fail(ValidationFailed(LastStepOutput(OutType(p.steps[|p.steps| - 1]), output)))
  {
  }

  /**
   * Among the adjacent pairs, validation reports pair `i` exactly when the two
   * end checks pass, pair `i` is broken and every earlier pair is linked.
   */
  lemma ValidationReportsFirstBrokenLink(p: Pipeline, input: Type, output: Type, assignable: Assignable, i: nat)
    requires i + 1 < |p.steps|
    ensures
      (Validation(p, input, output, assignable)
       == Fail(ValidationFailed(AdjacentSteps(i, OutType(p.steps[i]), InType(p.steps[i + 1])))))
      <==>
      (&& assignable(InType(p.steps[0]), input)
       && assignable(output, OutType(p.steps[|p.steps| - 1]))
       && !Linked(p.steps, assignable, i)
       && forall j: nat | j < i :: Linked(p.steps, assignable, j))
  {
    var b := FirstBrokenLink(p.steps, assignable, 0);
    if b.Some? && b.value != i {
      if b.value < i {
        assert !Linked(p.steps, assignable, b.value);
      } else {
        assert Linked(p.steps, assignable, i);
      }
    }
  }

  /** The adjacency loop: fails on the smallest index whose successor cannot take its output. */
  method EnsureStepsChain(steps: seq<Step>, assignable: Assignable) returns (r: Outcome)
    ensures r.Pass? <==> Chained(steps, assignable)
    ensures r.Fail? ==>
      && r.error.ValidationFailed? && r.error.mismatch.AdjacentSteps?
      && var i := r.error.mismatch.index;
      && i + 1 < |steps|
      && !Linked(steps, assignable, i)
      && (forall j: nat | j < i :: Linked(steps, assignable, j))
      && r.error.mismatch.produced == OutType(steps[i])
      && r.error.mismatch.expected == InType(steps[i + 1])
  {
    var i: nat := 0;
    while i + 1 < |steps|
      invariant forall j: nat | j < i && j + 1 < |steps| :: Linked(steps, assignable, j)
    {
      if !assignable(InType(steps[i + 1]), OutType(steps[i])) {
        assert !Linked(steps, assignable, i);
        return Fail(ValidationFailed(AdjacentSteps(i, OutType(steps[i]), InType(steps[i + 1]))));
      }
      i := i + 1;
    }
    return Pass;
  }

  /** `ValidatePipeline<TInput, TResult>()`: the three checks, in order. */
  method ValidatePipeline(p: Pipeline, input: Type, output: Type, assignable: Assignable)
    returns (r: Outcome)
    ensures r == Validation(p, input, output, assignable)
  {
    if |p.steps| == 0 {
      return Fail(InvalidOperation);
    }
    var first := InType(p.steps[0]);
    if !assignable(first, input) {
      return Fail(ValidationFailed(FirstStepInput(first, input)));
    }
    var last := OutType(p.steps[|p.steps| - 1]);
    if !assignable(output, last) {
      return Fail(ValidationFailed(LastStepOutput(last, output)));
    }
    r := EnsureStepsChain(p.steps, assignable);
    var b := FirstBrokenLink(p.steps, assignable, 0);
    if b.Some? {
      assert !Linked(p.steps, assignable, b.value);
    }
  }

  /** The steps run one after another; the first failure ends the run. */
  function Run(steps: seq<Step>, input: Value, assignable: Assignable): Result<Value>
    decreases |steps|
  {
    if steps == [] then Ok(input)
    else
      match Steps.Execute(steps[0], input, assignable)
      case Err(e) => Err(e)
      case Ok(v) => Run(steps[1..], v, assignable)
  }

  /** Running `a + b` is running `a`, then running `b` on its result. */
  lemma {:induction false} RunAppend(a: seq<Step>, b: seq<Step>, input: Value, assignable: Assignable)
    ensures Run(a + b, input, assignable)
         == match Run(a, input, assignable)
            case Err(e) => Err(e)
            case Ok(v) => Run(b, v, assignable)
    decreases |a|
  {
    if a == [] {
      assert a + b == b;
    } else {
      assert (a + b)[0] == a[0] && (a + b)[1..] == a[1..] + b;
      match Steps.Execute(a[0], input, assignable)
      case Err(e) =>
      case Ok(v) => RunAppend(a[1..], b, v, assignable);
    }
  }

  /** What `Execute<TInput, TResult>(input)` returns or throws. */
  function Execution(p: Pipeline, input: Value, inType: Type, outType: Type, assignable: Assignable): Result<Value> {
    match Validation(p, inType, outType, assignable)
    case Fail(e) => Err(e)
    case Pass =>
      match Run(p.steps, input, assignable)
      case Err(e) => Err(e)
      case Ok(v) => Cast(v, outType, assignable)
  }

  /** `Execute<TInput, TResult>(input)`: validate, then fold the value through the steps. */
  method Execute(p: Pipeline, input: Value, inType: Type, outType: Type, assignable: Assignable)
    returns (r: Result<Value>)
    ensures r == Execution(p, input, inType, outType, assignable)
  {
    var valid := ValidatePipeline(p, inType, outType, assignable);
    if valid.Fail? {
      return Err(valid.error);
    }
    var result := input;
    var i := 0;
    while i < |p.steps|
      invariant 0 <= i <= |p.steps|
      invariant Run(p.steps, input, assignable) == Run(p.steps[i..], result, assignable)
    {
      assert p.steps[i..][0] == p.steps[i] && p.steps[i..][1..] == p.steps[i + 1..];
      var next := Steps.Execute(p.steps[i], result, assignable);
      if next.Err? {
        return Err(next.error);
      }
      result := next.value;
      i := i + 1;
    }
    r := Cast(result, outType, assignable);
  }

  /** An empty pipeline has no first step to ask for its input type: it fails whatever the types. */
  lemma EmptyPipelineFails(input: Value, inType: Type, outType: Type, assignable: Assignable)
    ensures Execution(Empty(), input, inType, outType, assignable) == Err(InvalidOperation)
  {
  }

  /** A one-step pipeline whose step accepts the input type and produces the output type runs the step, then casts. */
  lemma SingleStepPipeline(step: Step, input: Value, inType: Type, outType: Type, assignable: Assignable)
    requires assignable(InType(step), inType) && assignable(outType, OutType(step))
    ensures Execution(Pipeline([step]), input, inType, outType, assignable)
         == match Steps.Execute(step, input, assignable)
            case Err(e) => Err(e)
            case Ok(v) => Cast(v, outType, assignable)
  {
    var p := Pipeline([step]);
    assert FirstBrokenLink(p.steps, assignable, 0) == None;
    assert Validation(p, inType, outType, assignable) == Pass;
    assert p.steps[1..] == [];
    match Steps.Execute(step, input, assignable)
    case Err(e) =>
    case Ok(v) => assert Run(p.steps, input, assignable) == Ok(v);
  }

  /** Two pipelines whose steps declare the same types, whatever the steps do. */
  predicate SameSignature(p: Pipeline, q: Pipeline) {
    && |p.steps| == |q.steps|
    && forall i | 0 <= i < |p.steps| :: InType(p.steps[i]) == InType(q.steps[i]) && OutType(p.steps[i]) == OutType(q.steps[i])
  }

  /**
   * Validation looks at the declared types only, and a failed validation is
   * reported before any step runs: what the steps would do cannot matter.
   */
  lemma ValidationFailureRunsNoStep(p: Pipeline, q: Pipeline, input: Value, inType: Type, outType: Type,
                                    assignable: Assignable)
    requires SameSignature(p, q)
    requires Validation(p, inType, outType, assignable).Fail?
    ensures Execution(p, input, inType, outType, assignable) == Err(Validation(p, inType, outType, assignable).error)
    ensures Execution(q, input, inType, outType, assignable) == Execution(p, input, inType, outType, assignable)
  {
    SameSignatureValidation(p, q, inType, outType, assignable);
  }

  lemma SameSignatureValidation(p: Pipeline, q: Pipeline, inType: Type, outType: Type, assignable: Assignable)
    requires SameSignature(p, q)
    ensures Validation(p, inType, outType, assignable) == Validation(q, inType, outType, assignable)
  {
    SameSignatureBrokenLink(p, q, assignable, 0);
  }

  lemma {:induction false} SameSignatureBrokenLink(p: Pipeline, q: Pipeline, assignable: Assignable, from: nat)
    requires SameSignature(p, q)
    ensures FirstBrokenLink(p.steps, assignable, from) == FirstBrokenLink(q.steps, assignable, from)
    decreases |p.steps| - from
  {
    if from + 1 < |p.steps| {
      SameSignatureBrokenLink(p, q, assignable, from + 1);
    }
  }

  /** A step added to a pipeline runs last, on what the old steps produced. */
  lemma RunAfterAdd(p: Pipeline, step: Step, input: Value, assignable: Assignable)
    ensures Run(Add(p, step).steps, input, assignable)
         == match Run(p.steps, input, assignable)
            case Err(e) => Err(e)
            case Ok(v) => Steps.Execute(step, v, assignable)
  {
    RunAppend(p.steps, [step], input, assignable);
    match Run(p.steps, input, assignable)
    case Err(e) =>
    case Ok(v) =>
      assert [step][1..] == [];
  }

  /** Two pipelines whose steps declare the same types and compute the same results. */
  ghost predicate Equivalent(p: Pipeline, q: Pipeline) {
    && SameSignature(p, q)
    && forall i, v, assignable | 0 <= i < |p.steps| ::
         Steps.Execute(p.steps[i], v, assignable) == Steps.Execute(q.steps[i], v, assignable)
  }

  lemma {:induction false} RunEquivalent(ps: seq<Step>, qs: seq<Step>, input: Value, assignable: Assignable)
    requires Equivalent(Pipeline(ps), Pipeline(qs))
    ensures Run(ps, input, assignable) == Run(qs, input, assignable)
    decreases |ps|
  {
    if ps != [] {
      assert Steps.Execute(ps[0], input, assignable) == Steps.Execute(qs[0], input, assignable);
      match Steps.Execute(ps[0], input, assignable)
      case Err(e) =>
      case Ok(v) =>
        assert Equivalent(Pipeline(ps[1..]), Pipeline(qs[1..])) by {
          forall i, w, a | 0 <= i < |ps[1..]|
            ensures Steps.Execute(ps[1..][i], w, a) == Steps.Execute(qs[1..][i], w, a)
          {
            assert ps[1..][i] == ps[i + 1] && qs[1..][i] == qs[i + 1];
          }
        }
        RunEquivalent(ps[1..], qs[1..], v, assignable);
    }
  }

  /** Equivalent pipelines execute to the same result or the same failure. */
  lemma EquivalentExecution(p: Pipeline, q: Pipeline, input: Value, inType: Type, outType: Type,
                            assignable: Assignable)
    requires Equivalent(p, q)
    ensures Execution(p, input, inType, outType, assignable) == Execution(q, input, inType, outType, assignable)
  {
    SameSignatureValidation(p, q, inType, outType, assignable);
    RunEquivalent(p.steps, q.steps, input, assignable);
  }
}
