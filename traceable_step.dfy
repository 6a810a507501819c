/**
 * TraceableAsyncStep<TIn, TOut>: a user function wrapped with named
 * preconditions and postconditions.  `Process` checks every precondition,
 * runs the function only when all of them hold, then checks every
 * postcondition on the function's output.  A failed check lists the names
 * of all failed checks, in the order the checks were added.
 */
module TraceableSteps {
  import opened Values

  /** A named check `(string name, Func<T, bool> check)`. */
  datatype Check = Check(name: string, holds: Value -> bool)

  /** A `Func<TIn, Task<TOut>>` together with the name of the method behind it. */
  datatype Delegate = Delegate(methodName: string, invoke: Value -> Result<Value>)

  /** An `ILogger`. */
  datatype Logger = Logger(category: string)

  /** The seven readonly fields of a TraceableAsyncStep, with its two type arguments. */
  datatype TraceableStep = TraceableStep(
    inType: Type,
    outType: Type,
    transform: Delegate,
    name: string,
    preconditions: seq<Check>,
    postconditions: seq<Check>,
    logger: Option<Logger>,  // None stands for a null logger
    inputIdentifier: Value -> string,
    outputIdentifier: Value -> string)

  predicate AllHold(checks: seq<Check>, v: Value) {
    forall k | 0 <= k < |checks| :: checks[k].holds(v)
  }

  /** `checks.Where(c => !c.check(v)).Select(c => c.name)`: every check is evaluated. */
  function FailedNames(checks: seq<Check>, v: Value): (names: seq<string>)
    ensures |names| <= |checks|
    ensures names == [] <==> AllHold(checks, v)
  {
    if checks == [] then []
    else (if checks[0].holds(v) then [] else [checks[0].name]) + FailedNames(checks[1..], v)
  }

  /** The names failed by `a + b` are those failed by `a`, then those failed by `b`. */
  lemma {:induction false} FailedNamesAppend(a: seq<Check>, b: seq<Check>, v: Value)
    ensures FailedNames(a + b, v) == FailedNames(a, v) + FailedNames(b, v)
  {
    if a != [] {
      assert (a + b)[0] == a[0] && (a + b)[1..] == a[1..] + b;
      FailedNamesAppend(a[1..], b, v);
      var head := if a[0].holds(v) then [] else [a[0].name];
      calc {
        FailedNames(a + b, v);
        head + FailedNames(a[1..] + b, v);
        head + (FailedNames(a[1..], v) + FailedNames(b, v));
        (head + FailedNames(a[1..], v)) + FailedNames(b, v);
      }
    } else {
      assert a + b == b;
    }
  }

  /** Every reported name is the name of a check that fails. */
  lemma {:induction false} FailedNamesSound(checks: seq<Check>, v: Value, k: nat)
    requires k < |FailedNames(checks, v)|
    ensures exists i | 0 <= i < |checks| :: checks[i].name == FailedNames(checks, v)[k] && !checks[i].holds(v)
  {
    if checks[0].holds(v) {
      FailedNamesSound(checks[1..], v, k);
      var i :| 0 <= i < |checks[1..]| && checks[1..][i].name == FailedNames(checks[1..], v)[k] && !checks[1..][i].holds(v);
      assert checks[i + 1] == checks[1..][i];
    } else if k > 0 {
      FailedNamesSound(checks[1..], v, k - 1);
      var i :| 0 <= i < |checks[1..]| && checks[1..][i].name == FailedNames(checks[1..], v)[k - 1] && !checks[1..][i].holds(v);
      assert checks[i + 1] == checks[1..][i];
    }
  }

  /** Every check that fails has its name reported. */
  lemma FailedNamesComplete(checks: seq<Check>, v: Value, i: nat)
    requires i < |checks| && !checks[i].holds(v)
    ensures checks[i].name in FailedNames(checks, v)
  {
    assert checks == checks[..i] + [checks[i]] + checks[i + 1..];
    FailedNamesAppend(checks[..i] + [checks[i]], checks[i + 1..], v);
    FailedNamesAppend(checks[..i], [checks[i]], v);
  }

  /** `string.Join(separator, items)`. */
  function Join(separator: string, items: seq<string>): string {
    if |items| == 0 then ""
    else if |items| == 1 then items[0]
    else items[0] + separator + Join(separator, items[1..])
  }

  const PreconditionsNotMet := ": The following Preconditions were not met: "
  const PostconditionsNotMet := ": The following Postconditions were not met: "
  const Aborting := ", aborting."

  /** The precondition message reads: step name, the fixed text, the failed names joined by ", ", ", aborting.". */
  function PreconditionMessage(stepName: string, failed: seq<string>): (m: string)
    ensures |m| == |stepName| + |PreconditionsNotMet| + |Join(", ", failed)| + |Aborting|
    ensures m[..|stepName|] == stepName
    ensures m[|stepName|..|stepName| + |PreconditionsNotMet|] == PreconditionsNotMet
    ensures m[|stepName| + |PreconditionsNotMet|..|m| - |Aborting|] == Join(", ", failed)
    ensures m[|m| - |Aborting|..] == Aborting
  {
    stepName + PreconditionsNotMet + Join(", ", failed) + Aborting
  }

  /** The postcondition message reads: step name, the fixed text, the failed names joined by ", ", ", aborting.". */
  function PostconditionMessage(stepName: string, failed: seq<string>): (m: string)
    ensures |m| == |stepName| + |PostconditionsNotMet| + |Join(", ", failed)| + |Aborting|
    ensures m[..|stepName|] == stepName
    ensures m[|stepName|..|stepName| + |PostconditionsNotMet|] == PostconditionsNotMet
    ensures m[|stepName| + |PostconditionsNotMet|..|m| - |Aborting|] == Join(", ", failed)
    ensures m[|m| - |Aborting|..] == Aborting
  {
    stepName + PostconditionsNotMet + Join(", ", failed) + Aborting
  }

  /** A step's precondition failure can always be told apart from its postcondition failure. */
  lemma PreconditionAndPostconditionMessagesDiffer(stepName: string, failedBefore: seq<string>,
                                                   failedAfter: seq<string>)
    ensures PreconditionMessage(stepName, failedBefore) != PostconditionMessage(stepName, failedAfter)
  {
    var pre, post := PreconditionMessage(stepName, failedBefore), PostconditionMessage(stepName, failedAfter);
    var k := |stepName| + 17;
    assert pre[k] == PreconditionsNotMet[17] == 'r';
    assert post[k] == PostconditionsNotMet[17] == 'o';
  }

  /** Throws unless every precondition holds of the input. */
  function Precheck(step: TraceableStep, input: Value): (r: Outcome)
    ensures r.Pass? <==> AllHold(step.preconditions, input)
  {
    var failed := FailedNames(step.preconditions, input);
    if |failed| > 0 then Fail(ConditionsNotMet(PreconditionMessage(step.name, failed))) else Pass
  }

  /** Throws unless every postcondition holds of the output. */
  function Postcheck(step: TraceableStep, output: Value): (r: Outcome)
    ensures r.Pass? <==> AllHold(step.postconditions, output)
  {
    var failed := FailedNames(step.postconditions, output);
    if |failed| > 0 then Fail(ConditionsNotMet(PostconditionMessage(step.name, failed))) else Pass
  }

  /** The typed `Process`: precheck, run the function, postcheck, return the output unchanged. */
  function Process(step: TraceableStep, input: Value): (r: Result<Value>)
    ensures r.Ok? <==>
      && AllHold(step.preconditions, input)
      && step.transform.invoke(input).Ok?
      && AllHold(step.postconditions, step.transform.invoke(input).value)
    ensures r.Ok? ==> r.value == step.transform.invoke(input).value
    ensures !AllHold(step.preconditions, input) ==>
      r == Err(ConditionsNotMet(PreconditionMessage(step.name, FailedNames(step.preconditions, input))))
    ensures AllHold(step.preconditions, input) && step.transform.invoke(input).Err? ==>
      r == step.transform.invoke(input)
    ensures
      && AllHold(step.preconditions, input)
      && step.transform.invoke(input).Ok?
      && !AllHold(step.postconditions, step.transform.invoke(input).value)
      ==> r == Err(ConditionsNotMet(PostconditionMessage(step.name,
            FailedNames(step.postconditions, step.transform.invoke(input).value))))
  {
    match Precheck(step, input)
    case Fail(e) => Err(e)
    case Pass =>
      match step.transform.invoke(input)
      case Err(e) => Err(e)
      case Ok(output) =>
        match Postcheck(step, output)
        case Fail(e) => Err(e)
        case Pass => Ok(output)
  }

  /** When a precondition fails the wrapped function is never run: replacing it changes nothing. */
  lemma PreconditionFailureSkipsFunction(step: TraceableStep, other: Delegate, input: Value)
    requires !AllHold(step.preconditions, input)
    ensures Process(step.(transform := other), input) == Process(step, input)
  {
  }

  /** With no checks at all, a step returns exactly what its function returns. */
  lemma UncheckedStepIsItsFunction(step: TraceableStep, input: Value)
    requires step.preconditions == [] && step.postconditions == []
    ensures Process(step, input) == step.transform.invoke(input)
  {
  }

  /** The logger and the identifier functions only feed log lines: they never change a result. */
  lemma ProcessIgnoresLogging(step: TraceableStep, logger: Option<Logger>,
                              inputIdentifier: Value -> string, outputIdentifier: Value -> string,
                              input: Value)
    ensures Process(step.(logger := logger, inputIdentifier := inputIdentifier,
                          outputIdentifier := outputIdentifier), input)
            == Process(step, input)
  {
  }
}
