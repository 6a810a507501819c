/**
 * Step<TIn, TOut>: the erased `IStep.Execute(object)` casts its argument to
 * `TIn` and hands it to the typed `Process`.  A step is either one built by a
 * step builder (a TraceableAsyncStep) or a hand-written subclass of Step.
 */
module Steps {
  import opened Values
  import opened TraceableSteps

  datatype Step =
    | Traceable(traceable: TraceableStep)
    | Custom(declaredIn: Type, declaredOut: Type, process: Value -> Result<Value>)

  /**
   * `TIn` of the step, the first type argument of its `Step<TIn, TOut>` base.
   * For a hand-written step this one tag is both what validation's step-type
   * lookup reads and the type `Execute` casts to.
   */
  function InType(s: Step): Type {
    match s
    case Traceable(t) => t.inType
    case Custom(i, _, _) => i
  }

  /** `TOut` of the step, the last type argument of its `Step<TIn, TOut>` base. */
  function OutType(s: Step): Type {
    match s
    case Traceable(t) => t.outType
    case Custom(_, o, _) => o
  }

  /** `IStep.Execute(input) => await Process((TIn) input)`. */
  function Execute(s: Step, input: Value, assignable: Assignable): (r: Result<Value>)
    ensures Cast(input, InType(s), assignable).Err? ==> r == Cast(input, InType(s), assignable)
    ensures Cast(input, InType(s), assignable).Ok? ==>
      r == (if s.Traceable? then Process(s.traceable, input) else s.process(input))
  {
    match Cast(input, InType(s), assignable)
    case Err(e) => Err(e)
    case Ok(v) =>
      match s
      case Traceable(t) => Process(t, v)
      case Custom(_, _, process) => process(v)
  }
}
