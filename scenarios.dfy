/**
 * The library's own test steps and test pipelines, stated as lemmas about
 * the model: ReverseString and IntToString (hand-written Step subclasses),
 * a step built from `ToUpperInvariant`, pre- and postcondition failures, and
 * the three validation failures.
 */
module Scenarios {
  import opened Values
  import opened TraceableSteps
  import opened Steps
  import StepBuilders
  import opened Pipelines
  import StepTypes

  /** A type hierarchy where a type accepts itself, and `object` accepts everything. */
  predicate ExactOrObject(sup: Type, sub: Type) {
    sup == sub || sup == ObjectType
  }

  /** `new string(input.Reverse().ToArray())`. */
  function Reverse(s: string): (r: string)
    ensures |r| == |s|
    ensures forall k | 0 <= k < |s| :: r[k] == s[|s| - 1 - k]
  {
    if s == [] then [] else Reverse(s[1..]) + [s[0]]
  }

  /** Reversing twice gives back the original string. */
  lemma ReverseReverse(s: string)
    ensures Reverse(Reverse(s)) == s
  {
    var r := Reverse(Reverse(s));
    forall k | 0 <= k < |s|
      ensures r[k] == s[k]
    {
      assert r[k] == Reverse(s)[|s| - 1 - k];
    }
  }

  /** `TestStep.ReverseString : Step<string, string>`; `Reverse` on a null string throws. */
  function ReverseString(): (step: Step)
    ensures step.Custom? && InType(step) == StringType && OutType(step) == StringType
    ensures forall str: string :: step.process(Str(str)) == Ok(Str(Reverse(str)))
    ensures step.process(Null).Err?
  {
    Custom(StringType, StringType,
           (v: Value) => match v
                         case Str(s) => Ok(Str(Reverse(s)))
                         case Null => Err(UserFailure("ArgumentNullException"))
                         case Int(_) => Err(InvalidCast))
  }

  /** `TestStep.IntToString : Step<int, string>`, `$"{input}"`. */
  function IntToString(): (step: Step)
    ensures step.Custom? && InType(step) == Int32Type && OutType(step) == StringType
    ensures forall i: int :: step.process(Int(i)) == Ok(Str(DecimalString(i)))
  {
    Custom(Int32Type, StringType,
           (v: Value) => if v.Int? then Ok(Str(DecimalString(v.i))) else Err(InvalidCast))
  }

  /** `char.ToUpperInvariant` on the ASCII letters. */
  function UpperChar(c: char): (u: char)
    ensures 'a' <= c <= 'z' ==> 'A' <= u <= 'Z' && u as int == c as int - 32
    ensures !('a' <= c <= 'z') ==> u == c
  {
    if 'a' <= c <= 'z' then (c as int - 32) as char else c
  }

  /** `string.ToUpperInvariant`. */
  function Upper(s: string): (u: string)
    ensures |u| == |s|
    ensures forall k | 0 <= k < |s| :: u[k] == UpperChar(s[k])
  {
    if s == [] then [] else [UpperChar(s[0])] + Upper(s[1..])
  }

  /** `str => Task.FromResult(str.ToUpperInvariant())`, which dereferences its argument. */
  const ToUpper: Delegate :=
    Delegate("<WorksForSimpleTasks>b__0_0",
             (v: Value) => match v
                           case Str(s) => Ok(Str(Upper(s)))
                           case Null => Err(NullReference)
                           case Int(_) => Err(InvalidCast))

  /** `Task.FromResult`: the input, unchanged. */
  const FromResult: Delegate := Delegate("FromResult", (v: Value) => Ok(v))

  /** "reverse-twice" through two ReverseString steps comes back unchanged, for every string. */
  lemma ReverseTwiceIsIdentity(s: string)
    ensures Execution(Pipeline([ReverseString(), ReverseString()]), Str(s), StringType, StringType, ExactOrObject)
         == Ok(Str(s))
  {
    var p := Pipeline([ReverseString(), ReverseString()]);
    assert Validation(p, StringType, StringType, ExactOrObject) == Pass by {
      assert Linked(p.steps, ExactOrObject, 0);
    }
    ReverseReverse(s);
    assert Cast(Str(s), StringType, ExactOrObject) == Ok(Str(s));
    assert Cast(Str(Reverse(s)), StringType, ExactOrObject) == Ok(Str(Reverse(s)));
    assert Steps.Execute(ReverseString(), Str(s), ExactOrObject) == Ok(Str(Reverse(s)));
    assert Steps.Execute(ReverseString(), Str(Reverse(s)), ExactOrObject) == Ok(Str(s));
    assert p.steps[1..] == [ReverseString()] && p.steps[1..][1..] == [];
    assert Run(p.steps[1..][1..], Str(s), ExactOrObject) == Ok(Str(s));
    assert Run(p.steps[1..], Str(Reverse(s)), ExactOrObject) == Ok(Str(s));
    assert Run(p.steps, Str(s), ExactOrObject) == Ok(Str(s));
  }

  /** A built step wrapping ToUpperInvariant turns "test" into "TEST". */
  lemma UpperCaseStep()
    ensures Execution(FromBuilders([StepBuilders.ThatExecutes(StringType, StringType, ToUpper)]),
                      Str("test"), StringType, StringType, ExactOrObject)
         == Ok(Str("TEST"))
  {
    var p := FromBuilders([StepBuilders.ThatExecutes(StringType, StringType, ToUpper)]);
    StepBuilders.FreshStepRunsItsFunction(StringType, StringType, ToUpper, Str("test"), ExactOrObject);
    assert Upper("test") == "TEST";
    assert Steps.Execute(p.steps[0], Str("test"), ExactOrObject) == Ok(Str("TEST"));
    assert p.steps[1..] == [];
    assert Run(p.steps, Str("test"), ExactOrObject) == Ok(Str("TEST"));
  }

  /** The two failed names as the messages list them. */
  lemma TwoNamesJoined()
    ensures Join(", ", ["NotNull", "NotEmpty"]) == "NotNull, NotEmpty"
  {
    assert ["NotNull", "NotEmpty"][1..] == ["NotEmpty"];
  }

  /** Two preconditions failing on null: both are reported, in the order they were added. */
  lemma ChecksAllPreconditions()
    ensures var b := StepBuilders.AssumingThat(
                       StepBuilders.AssumingThat(StepBuilders.ThatExecutesOn(StringType, FromResult),
                                                 "NotNull", (v: Value) => !v.Null?),
                       "NotEmpty", (v: Value) => !v.Null? && v != Str(""));
            Execution(FromBuilders([b]), Null, StringType, StringType, ExactOrObject)
            == Err(ConditionsNotMet(PreconditionMessage("FromResult", ["NotNull", "NotEmpty"])))
  {
    var b0 := StepBuilders.ThatExecutesOn(StringType, FromResult);
    var b1 := StepBuilders.AssumingThat(b0, "NotNull", (v: Value) => !v.Null?);
    var b := StepBuilders.AssumingThat(b1, "NotEmpty", (v: Value) => !v.Null? && v != Str(""));
    StepBuilders.TwoFailedPreconditionsInAppendOrder(StringType, FromResult, "NotNull", (v: Value) => !v.Null?,
                                                     "NotEmpty", (v: Value) => !v.Null? && v != Str(""), Null);
    var step := StepBuilders.Build(b);
    assert FromBuilders([b]) == Pipeline([step]);
    SingleStepPipeline(step, Null, StringType, StringType, ExactOrObject);
  }

  /** Two postconditions failing on the null the function returns: both are reported, in order. */
  lemma ChecksAllPostconditions()
    ensures var b := StepBuilders.WithPostcondition(
                       StepBuilders.WithPostcondition(StepBuilders.ThatExecutesOn(StringType, FromResult),
                                                      "NotNull", (v: Value) => !v.Null?),
                       "NotEmpty", (v: Value) => !v.Null? && v != Str(""));
            Execution(FromBuilders([b]), Null, StringType, StringType, ExactOrObject)
            == Err(ConditionsNotMet(PostconditionMessage("FromResult", ["NotNull", "NotEmpty"])))
  {
    var b0 := StepBuilders.ThatExecutesOn(StringType, FromResult);
    var b1 := StepBuilders.WithPostcondition(b0, "NotNull", (v: Value) => !v.Null?);
    var b := StepBuilders.WithPostcondition(b1, "NotEmpty", (v: Value) => !v.Null? && v != Str(""));
    StepBuilders.WithPostconditionReportsInOrder(b0, "NotNull", (v: Value) => !v.Null?, Null);
    StepBuilders.WithPostconditionReportsInOrder(b1, "NotEmpty", (v: Value) => !v.Null? && v != Str(""), Null);
    assert FailedNames(b.postconditions, Null) == ["NotNull", "NotEmpty"];
    var step := StepBuilders.Build(b);
    assert FromBuilders([b]) == Pipeline([step]);
    SingleStepPipeline(step, Null, StringType, StringType, ExactOrObject);
  }

  /** A logging step without checks passes a null string through untouched. */
  lemma NullsPassThroughLoggingStep(logger: Logger)
    ensures var b := StepBuilders.LoggingTo(StepBuilders.ThatExecutesOn(StringType, FromResult), Some(logger));
            Execution(FromBuilders([b]), Null, StringType, StringType, ExactOrObject) == Ok(Null)
  {
    var b := StepBuilders.LoggingTo(StepBuilders.ThatExecutesOn(StringType, FromResult), Some(logger));
    var p := FromBuilders([b]);
    UncheckedStepIsItsFunction(p.steps[0].traceable, Null);
    assert Steps.Execute(p.steps[0], Null, ExactOrObject) == Ok(Null);
    assert p.steps[1..] == [];
    assert Run(p.steps, Null, ExactOrObject) == Ok(Null);
  }

  /** `Execute<int, string>(1)` on [ReverseString]: the first step does not take an int. */
  lemma InputTypeIsChecked()
    ensures Execution(Pipeline([ReverseString()]), Int(1), Int32Type, StringType, ExactOrObject)
         == Err(ValidationFailed(FirstStepInput(StringType, Int32Type)))
  {
  }

  /** `Execute<string, int>("test")` on [ReverseString]: an int cannot hold the last step's string. */
  lemma OutputTypeIsChecked()
    ensures Execution(Pipeline([ReverseString()]), Str("test"), StringType, Int32Type, ExactOrObject)
         == Err(ValidationFailed(LastStepOutput(StringType, Int32Type)))
  {
  }

  /** `Execute<string, string>("test")` on [ReverseString, IntToString]: pair 0 does not link. */
  lemma InternalTypesAreChecked()
    ensures Execution(Pipeline([ReverseString(), IntToString()]), Str("test"), StringType, StringType, ExactOrObject)
         == Err(ValidationFailed(AdjacentSteps(0, StringType, Int32Type)))
  {
    var p := Pipeline([ReverseString(), IntToString()]);
    assert !Linked(p.steps, ExactOrObject, 0);
  }

  /** The four-step pipeline int -> int -> string -> string -> string validates as `<int, string>`. */
  lemma MixedPipelineValidates()
    ensures var p := Pipeline([StepBuilders.Build(StepBuilders.ThatExecutesOn(Int32Type, FromResult)),
                               IntToString(), ReverseString(),
                               StepBuilders.Build(StepBuilders.ThatExecutesOn(StringType, FromResult))]);
            Validation(p, Int32Type, StringType, ExactOrObject) == Pass
  {
    var p := Pipeline([StepBuilders.Build(StepBuilders.ThatExecutesOn(Int32Type, FromResult)),
                       IntToString(), ReverseString(),
                       StepBuilders.Build(StepBuilders.ThatExecutesOn(StringType, FromResult))]);
    ValidationSucceedsIff(p, Int32Type, StringType, ExactOrObject);
    assert Linked(p.steps, ExactOrObject, 0);
    assert Linked(p.steps, ExactOrObject, 1);
    assert Linked(p.steps, ExactOrObject, 2);
  }

  /** Asking the cache twice for the same step type gives the same answer both times. */
  method RepeatedInputTypeLookup(cache: StepTypes.StepTypeCache, h: StepTypes.Hierarchy, cls: Type)
    returns (first: Result<Type>, second: Result<Type>)
    requires cache.Valid() && StepTypes.WellFormed(h)
    modifies cache
    ensures cache.Valid()
    ensures first == second == StepTypes.InputTypeOf(h, cls)
    ensures cache.outputTypes == old(cache.outputTypes)
  {
    first := cache.GetInputType(h, cls);
    second := cache.GetInputType(h, cls);
  }
}
