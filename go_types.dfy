/**
  The Go values that reach the message layer through an `interface{}` parameter,
  and Go's conversions to fixed-width integers on a 64-bit platform.
*/
module GoTypes {

  const TWO_TO_31: int := 0x8000_0000
  const TWO_TO_32: int := 0x1_0000_0000
  const TWO_TO_63: int := 0x8000_0000_0000_0000

  predicate InInt32(x: int) { -TWO_TO_31 <= x < TWO_TO_31 }
  predicate InInt64(x: int) { -TWO_TO_63 <= x < TWO_TO_63 }

  type Int32 = x: int | InInt32(x)
  type Int64 = x: int | InInt64(x)

  /**
    A float64, kept only as much as a conversion to an integer type looks at it:
    a finite value by its value truncated toward zero, NaN and the infinities as NonFinite.
  */
  datatype Float64 = Finite(truncated: int) | NonFinite

  /** The dynamic value behind an `interface{}` argument. Go's `int` is 64 bits wide. */
  datatype GoValue =
    | GoInt(i: Int64)
    | GoInt32(i32: Int32)
    | GoInt64(i64: Int64)
    | GoFloat64(f: Float64)
    | GoString(s: string)
    | GoOther(typeName: string)   // bool, uint, int8, []byte, nil, ...

  /** The dynamic type a type switch sees. */
  datatype GoType = IntType | Int32Type | Int64Type | Float64Type | StringType | OtherType

  function TypeOf(v: GoValue): GoType
  {
    match v
    case GoInt(_) => IntType
    case GoInt32(_) => Int32Type
    case GoInt64(_) => Int64Type
    case GoFloat64(_) => Float64Type
    case GoString(_) => StringType
    case GoOther(_) => OtherType
  }

  /** `int32(x)` for a 64-bit integer `x`: two's-complement wrap-around, which keeps the low 32 bits. */
  function Int32Of(x: Int64): (r: Int32)
    ensures (r - x) % TWO_TO_32 == 0
    ensures InInt32(x) ==> r == x
  {
    (x + TWO_TO_31) % TWO_TO_32 - TWO_TO_31
  }

  /** The wrapped value is the only int32 that agrees with `x` modulo 2^32. */
  lemma Int32OfIsUnique(x: Int64, y: int)
    requires InInt32(y) && (y - x) % TWO_TO_32 == 0
    ensures y == Int32Of(x)
  {
  }

  /**
    `int64(f)` for a float64 `f`. Go defines the result only when the truncated value
    fits; otherwise it is implementation-dependent, and the model takes what amd64
    produces, the most negative int64.
  */
  function Int64OfFloat(f: Float64): (r: Int64)
    ensures f.Finite? && InInt64(f.truncated) ==> r == f.truncated
  {
    if f.Finite? && InInt64(f.truncated) then f.truncated else -TWO_TO_63
  }

  /** `int32(f)` for a float64 `f`, with the same choice as Int64OfFloat outside the defined range. */
  function Int32OfFloat(f: Float64): (r: Int32)
    ensures f.Finite? && InInt32(f.truncated) ==> r == f.truncated
  {
    if f.Finite? && InInt32(f.truncated) then f.truncated else -TWO_TO_31
  }
}
