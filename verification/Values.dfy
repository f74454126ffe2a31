/** Run-time values and the types of iterator states. */
module Values {

  /** A value of the lowered program. `Undef` is the result of `llvm.mlir.undef`; a `State` is
      a value of `!iterators.state<...>`; a `View` is a lowered tabular view: the number of
      elements and one buffer per column. */
  datatype Value =
    | Undef
    | Bool(b: bool)
    | Int(i: int)
    | Tuple(elements: seq<Value>)
    | View(size: int, columns: seq<seq<Value>>)
    | State(fields: seq<Value>)

  datatype Type =
    | I1
    | I32
    | I64
    | ViewType
    | ElementType
    | StateType(fieldTypes: seq<Type>)

  const MAX_I32: int := 0x7fff_ffff
  const MAX_I64: int := 0x7fff_ffff_ffff_ffff

  predicate InI32(i: int) {
    -MAX_I32 - 1 <= i <= MAX_I32
  }

  predicate InI64(i: int) {
    -MAX_I64 - 1 <= i <= MAX_I64
  }

  /** The value of `n` stored in a signed 32-bit integer. */
  function WrapI32(n: int): (r: int)
    ensures InI32(r)
    ensures InI32(n) ==> r == n
    ensures (r - n) % 0x1_0000_0000 == 0
  {
    (n + 0x8000_0000) % 0x1_0000_0000 - 0x8000_0000
  }

  /** A stream element, i.e., a scalar or a tuple, without any undefined part. */
  predicate Defined(v: Value) {
    match v
    case Undef => false
    case Bool(_) => true
    case Int(_) => true
    case Tuple(es) => forall e | e in es :: Defined(e)
    case View(_, _) => false
    case State(_) => false
  }

  predicate HasType(v: Value, t: Type)
    decreases t
  {
    match t
    case I1 => v.Bool?
    case I32 => v.Int? && InI32(v.i)
    case I64 => v.Int? && InI64(v.i)
    case ViewType => v.View?
    case ElementType => !v.State?
    case StateType(ts) =>
      v.State? && |v.fields| == |ts| && forall k | 0 <= k < |ts| :: HasType(v.fields[k], ts[k])
  }
}
