/**
 * AsyncStepBuilder<TIn, TOut> and its factory AStep.ThatExecutes.  A builder
 * is an immutable record of a step's configuration; every with-style call
 * returns a copy with one field replaced or one check list extended, and
 * `Build` turns the record into a TraceableAsyncStep.
 */
module StepBuilders {
  import opened Values
  import opened TraceableSteps
  import opened Steps

  /** The seven fields AStep.ThatExecutes passes, with the builder's two type arguments. */
  datatype StepBuilder = StepBuilder(
    inType: Type,
    outType: Type,
    transform: Delegate,
    name: string,
    preconditions: seq<Check>,
    postconditions: seq<Check>,
    logger: Option<Logger>,  // None stands for a null logger
    inputIdentifier: Value -> string,
    outputIdentifier: Value -> string)

  /** `v => v?.ToString() ?? $"{typeof(T).Name}: null"`. */
  function DefaultIdentifier(t: Type): (id: Value -> string)
    ensures id(Null) == t.name + ": null"
    ensures forall v: Value | !v.Null? :: id(v) == DisplayString(v)
  {
    (v: Value) => if v.Null? then t.name + ": null" else DisplayString(v)
  }

  /** `AStep.ThatExecutes<TIn, TOut>(function)`: no checks, no logger, default name and identifiers. */
  function ThatExecutes(inType: Type, outType: Type, transform: Delegate): (b: StepBuilder)
    ensures b.inType == inType && b.outType == outType && b.transform == transform
    ensures b.preconditions == [] && b.postconditions == [] && b.logger == None
    ensures b.name == transform.methodName
    ensures b.inputIdentifier(Null) == inType.name + ": null"
    ensures b.outputIdentifier(Null) == outType.name + ": null"
    ensures forall v: Value | !v.Null? :: b.inputIdentifier(v) == DisplayString(v) && b.outputIdentifier(v) == DisplayString(v)
  {
    StepBuilder(inType, outType, transform, transform.methodName, [], [], None,
                DefaultIdentifier(inType), DefaultIdentifier(outType))
  }

  /** `AStep.ThatExecutes<T>(function)`. */
  function ThatExecutesOn(t: Type, transform: Delegate): (b: StepBuilder)
    ensures b == ThatExecutes(t, t, transform)
  {
    ThatExecutes(t, t, transform)
  }

  /** Appends a precondition; the existing ones keep their order and nothing else changes. */
  function WithPrecondition(b: StepBuilder, name: string, check: Value -> bool): (r: StepBuilder)
    ensures |r.preconditions| == |b.preconditions| + 1
    ensures r.preconditions[..|b.preconditions|] == b.preconditions
    ensures r.preconditions[|b.preconditions|] == Check(name, check)
    ensures r.(preconditions := b.preconditions) == b
  {
    b.(preconditions := b.preconditions + [Check(name, check)])
  }

  /** Appends a postcondition; the existing ones keep their order and nothing else changes. */
  function WithPostcondition(b: StepBuilder, name: string, check: Value -> bool): (r: StepBuilder)
    ensures |r.postconditions| == |b.postconditions| + 1
    ensures r.postconditions[..|b.postconditions|] == b.postconditions
    ensures r.postconditions[|b.postconditions|] == Check(name, check)
    ensures r.(postconditions := b.postconditions) == b
  {
    b.(postconditions := b.postconditions + [Check(name, check)])
  }

  /** `AssumingThat(name, check)`: the later spelling of WithPrecondition. */
  function AssumingThat(b: StepBuilder, name: string, check: Value -> bool): (r: StepBuilder)
    ensures r == WithPrecondition(b, name, check)
  {
    WithPrecondition(b, name, check)
  }

  /** Replaces the display name and nothing else. */
  function Named(b: StepBuilder, name: string): (r: StepBuilder)
    ensures r.name == name && r.(name := b.name) == b
  {
    b.(name := name)
  }

  /** Replaces the logger (`None` for a null logger) and nothing else. */
  function LoggingTo(b: StepBuilder, logger: Option<Logger>): (r: StepBuilder)
    ensures r.logger == logger && r.(logger := b.logger) == b
  {
    b.(logger := logger)
  }

  /** `WithoutLogging()`: `LoggingTo(null)`. */
  function WithoutLogging(b: StepBuilder): (r: StepBuilder)
    ensures r == LoggingTo(b, None)
  {
    LoggingTo(b, None)
  }

  /** A TraceableAsyncStep carrying every field of the builder. */
  function Build(b: StepBuilder): (s: Step)
    ensures s.Traceable?
    ensures InType(s) == b.inType && OutType(s) == b.outType
    ensures s.traceable.transform == b.transform && s.traceable.name == b.name
    ensures s.traceable.preconditions == b.preconditions
    ensures s.traceable.postconditions == b.postconditions
    ensures s.traceable.logger == b.logger
    ensures s.traceable.inputIdentifier == b.inputIdentifier
    ensures s.traceable.outputIdentifier == b.outputIdentifier
  {
    Traceable(TraceableStep(b.inType, b.outType, b.transform, b.name, b.preconditions,
                            b.postconditions, b.logger, b.inputIdentifier, b.outputIdentifier))
  }

  /**
   * A step fresh from ThatExecutes never fails a check: executing it is the
   * cast to `TIn` followed by the function.
   */
  lemma FreshStepRunsItsFunction(inType: Type, outType: Type, transform: Delegate,
                                 input: Value, assignable: Assignable)
    ensures Execute(Build(ThatExecutes(inType, outType, transform)), input, assignable)
         == match Cast(input, inType, assignable)
            case Err(e) => Err(e)
            case Ok(v) => transform.invoke(v)
  {
    var s := Build(ThatExecutes(inType, outType, transform));
    match Cast(input, inType, assignable)
    case Err(e) =>
    case Ok(v) =>
      UncheckedStepIsItsFunction(s.traceable, v);
  }

  /**
   * Adding a precondition appends its name to the failure list exactly when it
   * fails, after the names of the earlier preconditions.
   */
  lemma WithPreconditionReportsInOrder(b: StepBuilder, name: string, check: Value -> bool, v: Value)
    ensures FailedNames(WithPrecondition(b, name, check).preconditions, v)
         == FailedNames(b.preconditions, v) + (if check(v) then [] else [name])
  {
    FailedNamesAppend(b.preconditions, [Check(name, check)], v);
  }

  /** Adding a postcondition appends its name to the failure list exactly when it fails. */
  lemma WithPostconditionReportsInOrder(b: StepBuilder, name: string, check: Value -> bool, v: Value)
    ensures FailedNames(WithPostcondition(b, name, check).postconditions, v)
         == FailedNames(b.postconditions, v) + (if check(v) then [] else [name])
  {
    FailedNamesAppend(b.postconditions, [Check(name, check)], v);
  }

  /**
   * Two preconditions added one after the other to a fresh builder, both
   * failing on the input: the built step fails without running the function,
   * naming the two checks in the order they were added.
   */
  lemma TwoFailedPreconditionsInAppendOrder(t: Type, transform: Delegate,
                                             n1: string, c1: Value -> bool,
                                             n2: string, c2: Value -> bool, input: Value)
    requires !c1(input) && !c2(input)
    ensures var b := WithPrecondition(WithPrecondition(ThatExecutesOn(t, transform), n1, c1), n2, c2);
            Process(Build(b).traceable, input)
            == Err(ConditionsNotMet(PreconditionMessage(transform.methodName, [n1, n2])))
  {
    var b0 := ThatExecutesOn(t, transform);
    var b1 := WithPrecondition(b0, n1, c1);
    WithPreconditionReportsInOrder(b0, n1, c1, input);
    WithPreconditionReportsInOrder(b1, n2, c2, input);
    assert !c1(input);
    assert FailedNames(b1.preconditions, input) == [n1];
  }
}
