/**
 * PipelineExtensions: a step's input and output types are read from the
 * first type in its base-type chain that looks like `Step<TIn, TOut>`, and
 * each answer is memoised in a process-wide map that only ever grows.
 * .NET reflection is replaced by a finite hierarchy: each known type's base
 * type, whether it implements IStep, whether it is abstract, and its depth
 * (its distance from the root), which makes the hierarchy acyclic.
 */
module StepTypes {
  import opened Values

  datatype TypeInfo = TypeInfo(baseType: Option<Type>, implementsIStep: bool, isAbstract: bool, depth: nat)

  type Hierarchy = map<Type, TypeInfo>

  /** Every base type is known and lies strictly closer to the root. */
  predicate WellFormed(h: Hierarchy) {
    forall t | t in h && h[t].baseType.Some? ::
      h[t].baseType.value in h && h[h[t].baseType.value].depth < h[t].depth
  }

  /** `type.BaseType`; a type the hierarchy does not know has none. */
  function BaseOf(h: Hierarchy, t: Type): Option<Type> {
    if t in h then h[t].baseType else None
  }

  function Depth(h: Hierarchy, t: Type): nat {
    if t in h then h[t].depth + 1 else 0
  }

  /** `r` is the type itself, then each successive base type, ending at a type without one. */
  predicate IsBaseChain(h: Hierarchy, t: Type, r: seq<Type>) {
    && |r| > 0 && r[0] == t
    && (forall i | 0 <= i < |r| - 1 :: BaseOf(h, r[i]) == Some(r[i + 1]))
    && BaseOf(h, r[|r| - 1]) == None
  }

  /** The sequence `GetBaseTypes` yields. */
  function BaseChain(h: Hierarchy, t: Type): (r: seq<Type>)
    requires WellFormed(h)
    ensures IsBaseChain(h, t, r)
    decreases Depth(h, t)
  {
    match BaseOf(h, t)
    case None => [t]
    case Some(b) => [t] + BaseChain(h, b)
  }

  /** A base chain goes on past its first type exactly when that type has a base type. */
  lemma BaseChainHead(h: Hierarchy, t: Type, r: seq<Type>)
    requires IsBaseChain(h, t, r)
    ensures |r| > 1 <==> BaseOf(h, t).Some?
    ensures |r| > 1 ==> BaseOf(h, t) == Some(r[1])
  {
    if |r| > 1 {
      assert BaseOf(h, r[0]) == Some(r[1]);
    }
  }

  /** There is only one base chain from a given type. */
  lemma {:induction false} BaseChainUnique(h: Hierarchy, t: Type, r1: seq<Type>, r2: seq<Type>)
    requires IsBaseChain(h, t, r1) && IsBaseChain(h, t, r2)
    ensures r1 == r2
    decreases |r1|
  {
    BaseChainHead(h, t, r1);
    BaseChainHead(h, t, r2);
    match BaseOf(h, t)
    case None =>
      assert r1 == [t] && r2 == [t];
    case Some(b) =>
      assert r1[1] == b && r2[1] == b;
      assert IsBaseChain(h, b, r1[1..]) && IsBaseChain(h, b, r2[1..]);
      BaseChainUnique(h, b, r1[1..], r2[1..]);
      assert r1 == [t] + r1[1..] && r2 == [t] + r2[1..];
  }

  /** `GetBaseTypes`: `for (current = type; current != null; current = current.BaseType) yield return current`. */
  method GetBaseTypes(h: Hierarchy, t: Type) returns (r: seq<Type>)
    requires WellFormed(h)
    ensures IsBaseChain(h, t, r)
  {
    r := [];
    var current := Some(t);
    while current.Some?
      invariant current.Some? ==> r + BaseChain(h, current.value) == BaseChain(h, t)
      invariant current.None? ==> r == BaseChain(h, t)
      decreases if current.Some? then Depth(h, current.value) + 1 else 0
    {
      var c := current.value;
      assert BaseChain(h, c) == [c] + (if BaseOf(h, c).Some? then BaseChain(h, BaseOf(h, c).value) else []);
      r := r + [c];
      current := BaseOf(h, c);
    }
  }

  /** `IsStep`: named `Step...`, implements IStep, abstract, exactly two type arguments. */
  predicate IsStep(h: Hierarchy, t: Type)
    ensures IsStep(h, t) <==> ("Step" <= t.name && t in h && h[t].implementsIStep && h[t].isAbstract && |t.args| == 2)
  {
    && "Step" <= t.name
    && t in h && h[t].implementsIStep
    && h[t].isAbstract
    && |t.args| == 2
  }

  /** The index of the first type in `types` satisfying IsStep, if any. */
  function FirstStepIndex(h: Hierarchy, types: seq<Type>): (r: Option<nat>)
    ensures r.Some? ==> r.value < |types| && IsStep(h, types[r.value])
    ensures r.Some? ==> forall j | 0 <= j < r.value :: !IsStep(h, types[j])
    ensures r.None? ==> forall j | 0 <= j < |types| :: !IsStep(h, types[j])
  {
    if types == [] then None
    else if IsStep(h, types[0]) then Some(0)
    else
      match FirstStepIndex(h, types[1..])
      case None => None
      case Some(k) => Some(k + 1)
  }

  /** `GetStepType`: the first type of the base chain satisfying IsStep; `First` throws when there is none. */
  function StepTypeOf(h: Hierarchy, cls: Type): (r: Result<Type>)
    requires WellFormed(h)
  {
    var chain := BaseChain(h, cls);
    match FirstStepIndex(h, chain)
    case None => Err(InvalidOperation)
    case Some(k) => Ok(chain[k])
  }

  /** The uncached `t.GenericTypeArguments.First()` of the step type. */
  function InputTypeOf(h: Hierarchy, cls: Type): Result<Type>
    requires WellFormed(h)
  {
    match StepTypeOf(h, cls)
    case Err(e) => Err(e)
    case Ok(s) => Ok(s.args[0])
  }

  /** The uncached `t.GenericTypeArguments.Last()` of the step type. */
  function OutputTypeOf(h: Hierarchy, cls: Type): Result<Type>
    requires WellFormed(h)
  {
    match StepTypeOf(h, cls)
    case Err(e) => Err(e)
    case Ok(s) => Ok(s.args[1])
  }

  /**
   * The step type is a type of the chain satisfying IsStep, and no type
   * before it does; the lookup fails exactly when no type of the chain does.
   */
  lemma StepTypeIsFirstStepInChain(h: Hierarchy, cls: Type)
    requires WellFormed(h)
    ensures StepTypeOf(h, cls).Ok? ==>
      exists k | 0 <= k < |BaseChain(h, cls)| ::
        && BaseChain(h, cls)[k] == StepTypeOf(h, cls).value
        && IsStep(h, BaseChain(h, cls)[k])
        && forall j | 0 <= j < k :: !IsStep(h, BaseChain(h, cls)[j])
    ensures StepTypeOf(h, cls).Err? ==> forall j | 0 <= j < |BaseChain(h, cls)| :: !IsStep(h, BaseChain(h, cls)[j])
    ensures (forall j | 0 <= j < |BaseChain(h, cls)| :: !IsStep(h, BaseChain(h, cls)[j])) ==> StepTypeOf(h, cls).Err?
  {
    var chain := BaseChain(h, cls);
    var k := FirstStepIndex(h, chain);
    if k.Some? {
      assert StepTypeOf(h, cls) == Ok(chain[k.value]);
      assert IsStep(h, BaseChain(h, cls)[k.value]);
      assert !forall j | 0 <= j < |BaseChain(h, cls)| :: !IsStep(h, BaseChain(h, cls)[j]);
    } else {
      assert StepTypeOf(h, cls) == Err(InvalidOperation);
      assert forall j | 0 <= j < |BaseChain(h, cls)| :: !IsStep(h, BaseChain(h, cls)[j]);
    }
  }

  /** `GetStepType()`: walk the base types, then take the first step type. */
  method GetStepType(h: Hierarchy, cls: Type) returns (r: Result<Type>)
    requires WellFormed(h)
    ensures r == StepTypeOf(h, cls)
  {
    var chain := GetBaseTypes(h, cls);
    BaseChainUnique(h, cls, chain, BaseChain(h, cls));
    var k := FirstStepIndex(h, chain);
    if k.None? {
      return Err(InvalidOperation);
    }
    r := Ok(chain[k.value]);
  }

  /** The runtime class of a built step, `TraceableAsyncStep<TIn, TOut>`. */
  function TraceableType(inType: Type, outType: Type): Type {
    Type("TraceableAsyncStep`2", [inType, outType])
  }

  /** `Step<TIn, TOut>`. */
  function StepType(inType: Type, outType: Type): Type {
    Type("Step`2", [inType, outType])
  }

  /**
   * In a hierarchy where TraceableAsyncStep<I, O> derives from the abstract
   * Step<I, O>, which implements IStep, the lookups answer I and O.
   */
  lemma TraceableStepTypes(h: Hierarchy, i: Type, o: Type)
    requires WellFormed(h)
    requires BaseOf(h, TraceableType(i, o)) == Some(StepType(i, o))
    requires StepType(i, o) in h && h[StepType(i, o)].implementsIStep && h[StepType(i, o)].isAbstract
    ensures InputTypeOf(h, TraceableType(i, o)) == Ok(i)
    ensures OutputTypeOf(h, TraceableType(i, o)) == Ok(o)
  {
    var chain := BaseChain(h, TraceableType(i, o));
    assert chain[0] == TraceableType(i, o) && chain[1] == StepType(i, o);
    assert !IsStep(h, chain[0]) by {
      assert TraceableType(i, o).name[0] == 'T';
    }
    assert IsStep(h, chain[1]);
  }

  /**
   * The two process-wide caches, `ConcurrentDictionary<Type, Type>`, keyed by
   * step type.  An entry, once added, is never replaced or removed.
   */
  class StepTypeCache {
    var inputTypes: map<Type, Type>
    var outputTypes: map<Type, Type>

    /** Each entry holds what the factory of `GetOrAdd` computes from its key. */
    predicate Valid()
      reads this
    {
      && (forall s | s in inputTypes :: |s.args| == 2 && inputTypes[s] == s.args[0])
      && (forall s | s in outputTypes :: |s.args| == 2 && outputTypes[s] == s.args[1])
    }

    constructor ()
      ensures Valid()
      ensures inputTypes == map[] && outputTypes == map[]
    {
      inputTypes := map[];
      outputTypes := map[];
    }

    /** `GetInputType()`: `InputTypeCache.GetOrAdd(step.GetStepType(), t => t.GenericTypeArguments.First())`. */
    method GetInputType(h: Hierarchy, cls: Type) returns (r: Result<Type>)
      requires Valid() && WellFormed(h)
      modifies this
      ensures Valid()
      ensures r == InputTypeOf(h, cls)
      ensures outputTypes == old(outputTypes)
      ensures forall s | s in old(inputTypes) :: s in inputTypes && inputTypes[s] == old(inputTypes)[s]
      ensures inputTypes.Keys == old(inputTypes).Keys + (if StepTypeOf(h, cls).Ok? then {StepTypeOf(h, cls).value} else {})
    {
      var st := GetStepType(h, cls);
      if st.Err? {
        return Err(st.error);
      }
      var s := st.value;
      StepTypeIsFirstStepInChain(h, cls);
      if s !in inputTypes {
        inputTypes := inputTypes[s := s.args[0]];
      }
      r := Ok(inputTypes[s]);
    }

    /** `GetOutputType()`: `OutputTypeCache.GetOrAdd(step.GetStepType(), t => t.GenericTypeArguments.Last())`. */
    method GetOutputType(h: Hierarchy, cls: Type) returns (r: Result<Type>)
      requires Valid() && WellFormed(h)
      modifies this
      ensures Valid()
      ensures r == OutputTypeOf(h, cls)
      ensures inputTypes == old(inputTypes)
      ensures forall s | s in old(outputTypes) :: s in outputTypes && outputTypes[s] == old(outputTypes)[s]
      ensures outputTypes.Keys == old(outputTypes).Keys + (if StepTypeOf(h, cls).Ok? then {StepTypeOf(h, cls).value} else {})
    {
      var st := GetStepType(h, cls);
      if st.Err? {
        return Err(st.error);
      }
      var s := st.value;
      StepTypeIsFirstStepInChain(h, cls);
      if s !in outputTypes {
        outputTypes := outputTypes[s := s.args[1]];
      }
      r := Ok(outputTypes[s]);
    }
  }
}
