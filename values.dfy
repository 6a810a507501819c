/**
 * Runtime types, the erased values that flow through a pipeline, and the
 * failures the library raises.  The .NET type system is reduced to what the
 * pipeline looks at: a type's name and its generic arguments, and the
 * assignability relation `sup.IsAssignableFrom(sub)`, which callers supply.
 */
module Values {

  /** A runtime type: its simple name (`Type.Name`) and its generic type arguments. */
  datatype Type = Type(name: string, args: seq<Type>)

  const ObjectType := Type("Object", [])
  const StringType := Type("String", [])
  const Int32Type := Type("Int32", [])

  /** `Assignable(sup, sub)` is `sup.IsAssignableFrom(sub)`. */
  type Assignable = (Type, Type) -> bool

  /** The `object` values a step receives and returns. */
  datatype Value = Null | Str(s: string) | Int(i: int)

  /** `value.GetType()` of a non-null value. */
  function RuntimeType(v: Value): Type
    requires !v.Null?
  {
    match v
    case Str(_) => StringType
    case Int(_) => Int32Type
  }

  /** The value types of the model; a null cannot be unboxed into one. */
  predicate IsValueType(t: Type) {
    t == Int32Type
  }

  /** The offending pair a failed pipeline validation reports. */
  datatype Mismatch =
    | FirstStepInput(expected: Type, passed: Type)
    | LastStepOutput(produced: Type, expected: Type)
    | AdjacentSteps(index: nat, produced: Type, expected: Type)

  datatype Error =
    | InvalidCast                        // InvalidCastException of `(T) x`
    | NullReference                      // null unboxed into a value type, or dereferenced by a step
    | InvalidOperation                   // `First()`/`Last()` finding no element
    | ValidationFailed(mismatch: Mismatch)  // ArgumentException from ValidatePipeline
    | ConditionsNotMet(message: string)  // ArgumentException from a step's pre- or postcheck
    | UserFailure(message: string)       // anything the wrapped function throws

  datatype Option<+T> = None | Some(value: T)

  datatype Result<+T> = Ok(value: T) | Err(error: Error)

  datatype Outcome = Pass | Fail(error: Error)

  /** The cast `(T) x`: a reference keeps its identity, a null passes unless `T` is a value type. */
  function Cast(v: Value, t: Type, assignable: Assignable): (r: Result<Value>)
    ensures r.Ok? ==> r.value == v
    ensures r.Ok? <==> if v.Null? then !IsValueType(t) else assignable(t, RuntimeType(v))
  {
    if v.Null? then
      if IsValueType(t) then Err(NullReference) else Ok(v)
    else if assignable(t, RuntimeType(v)) then Ok(v)
    else Err(InvalidCast)
  }

  /** The decimal digits of a natural number. */
  function Digits(n: nat): (s: string)
    ensures |s| > 0
    ensures forall k | 0 <= k < |s| :: '0' <= s[k] <= '9'
  {
    var d := [('0' as int + n % 10) as char];
    if n < 10 then d else Digits(n / 10) + d
  }

  /** `int.ToString()` as the invariant culture prints it. */
  function DecimalString(i: int): string {
    if i < 0 then "-" + Digits(-i) else Digits(i)
  }

  /** `value.ToString()` of a non-null value. */
  function DisplayString(v: Value): string
    requires !v.Null?
  {
    match v
    case Str(s) => s
    case Int(i) => DecimalString(i)
  }
}
