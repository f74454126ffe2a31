/** The launcher of a just-in-time compiled kernel and its cache of compiled kernels. */
module KernelCache {
  import opened Wrappers

  /** An argument of a launch. */
  datatype Arg =
    | Tensor(dtype: string, ptr: int)   // has `dtype` and `data_ptr`
    | DtypeOnly(dtype: string)          // has `dtype`, but no `data_ptr`
    | Int(i: int)
    | Bool(b: bool)                     // an instance of `int`, too
    | Float(r: real)
    | NegativeZero                      // the float that is equal to zero, but prints as -0.0
    | NoneArg
    | Callable(name: string)
    | Other(repr: string)

  /** A kernel function: which of its parameters are constexprs, and the argument positions that
      must not be specialized. All other parameters are regular and without annotation. */
  datatype Decl = Decl(constexpr: seq<bool>, doNotSpecialize: set<nat>, debug: bool)

  datatype Call = Call(args: seq<Arg>, numWarps: int, numStages: int,
                       externLibs: Option<seq<(string, string)>>, device: int, hookSkips: bool)

  // ----- The parts of the key -----

  datatype SigKey = Dtype(dtype: string) | TypeName(name: string) | NoneKey | Unsupported

  function KeyOf(arg: Arg): SigKey {
    match arg
    case Tensor(dtype, _) => Dtype(dtype)
    case DtypeOnly(dtype) => Dtype(dtype)
    case Bool(_) => TypeName("i1")
    case Int(i) =>
      if -0x8000_0000 <= i <= 0x7fff_ffff then TypeName("i32")
      else if 0x8000_0000_0000_0000 <= i <= 0xffff_ffff_ffff_ffff then TypeName("u64")
      else TypeName("i64")
    case Float(_) => TypeName("fp32")
    case NegativeZero => TypeName("fp32")
    case NoneArg => NoneKey
    case Callable(_) => Unsupported
    case Other(_) => Unsupported
  }

  /** The value of an instance of `int`. */
  function IntValue(arg: Arg): int
    requires arg.Int? || arg.Bool?
  {
    if arg.Int? then arg.i else if arg.b then 1 else 0
  }

  datatype SpecKey = PointerSpec(divisible: bool) | IntSpec(divisible: bool, one: bool) | NoSpec

  function SpecializationKey(arg: Arg): SpecKey {
    match arg
    case Tensor(_, ptr) => PointerSpec(ptr % 16 == 0)
    case Int(_) => IntSpec(IntValue(arg) % 16 == 0, IntValue(arg) == 1)
    case Bool(_) => IntSpec(IntValue(arg) % 16 == 0, IntValue(arg) == 1)
    case _ => NoSpec
  }

  /** What Python compares when it compares constexpr values: numbers of all types by value. */
  datatype Comparable = Number(value: real) | Object(arg: Arg)

  function Compared(arg: Arg): Comparable {
    match arg
    case Int(i) => Number(i as real)
    case Bool(b) => Number(if b then 1.0 else 0.0)
    case Float(r) => Number(r)
    case NegativeZero => Number(0.0)
    case _ => Object(arg)
  }

  /** The number of regular parameters before position `n`. */
  function Rank(d: Decl, n: nat): nat
    requires n <= |d.constexpr|
  {
    if n == 0 then 0 else Rank(d, n - 1) + if d.constexpr[n - 1] then 0 else 1
  }

  function SigKeys(d: Decl, args: seq<Arg>, n: nat): seq<SigKey>
    requires n <= |d.constexpr| == |args|
  {
    if n == 0 then []
    else SigKeys(d, args, n - 1) + if d.constexpr[n - 1] then [] else [KeyOf(args[n - 1])]
  }

  function ConstexprKeys(d: Decl, args: seq<Arg>, n: nat): seq<Comparable>
    requires n <= |d.constexpr| == |args|
  {
    if n == 0 then []
    else ConstexprKeys(d, args, n - 1) + if d.constexpr[n - 1] then [Compared(args[n - 1])] else []
  }

  /** Whether the key has a specialization for the parameter: the launcher looks for the rank among
      the regular parameters, although the set holds argument positions. */
  predicate KeySpecializes(d: Decl, i: nat)
    requires i < |d.constexpr|
  {
    !d.constexpr[i] && Rank(d, i) !in d.doNotSpecialize
  }

  function SpecKeys(d: Decl, args: seq<Arg>, n: nat): seq<SpecKey>
    requires n <= |d.constexpr| == |args|
  {
    if n == 0 then []
    else
      SpecKeys(d, args, n - 1)
      + if KeySpecializes(d, n - 1) then [SpecializationKey(args[n - 1])] else []
  }

  datatype Key = Key(sig: seq<SigKey>, constexprs: seq<Comparable>, spec: seq<SpecKey>,
                     numWarps: int, numStages: int, debug: bool, externLibs: Option<seq<(string, string)>>)

  function KeyOfCall(d: Decl, c: Call): Key
    requires |c.args| == |d.constexpr|
  {
    var n := |c.args|;
    Key(SigKeys(d, c.args, n), ConstexprKeys(d, c.args, n), SpecKeys(d, c.args, n),
        c.numWarps, c.numStages, d.debug, c.externLibs)
  }

  // ----- What is compiled -----

  /** Everything the compiler is given. */
  datatype Inputs = Inputs(signature: map<nat, Option<string>>, device: int, constants: map<nat, Arg>,
                           numWarps: int, numStages: int, externLibs: Option<seq<(string, string)>>,
                           divisibleBy16: set<nat>, equalTo1: set<nat>, debug: bool)

  const TYPE_NAMES: map<string, string> :=
    map["bool" := "i1", "float8e5" := "fp8e5", "float8e4" := "fp8e4", "float16" := "fp16",
        "bfloat16" := "bf16", "float32" := "fp32", "float64" := "fp64", "int8" := "i8",
        "int16" := "i16", "int32" := "i32", "int64" := "i64", "uint8" := "u8",
        "uint16" := "u16", "uint32" := "u32", "uint64" := "u64"]

  /** The short name of an element type; short names stand for themselves. */
  function ElementName(dtype: string): Option<string> {
    if dtype in TYPE_NAMES.Values then Some(dtype)
    else if dtype in TYPE_NAMES then Some(TYPE_NAMES[dtype])
    else None
  }

  /** The Triton type for a key; none if the dtype is unknown. */
  function TypeOf(key: SigKey): Option<string> {
    match key
    case NoneKey => Some("*i8")
    case TypeName(name) => Some(name)
    case Dtype(dtype) => var name := ElementName(dtype); if name.Some? then Some("*" + name.value) else None
    case Unsupported => None
  }

  predicate IsDivisibleBy16(arg: Arg) {
    match arg
    case Tensor(_, ptr) => ptr % 16 == 0
    case Int(_) => IntValue(arg) % 16 == 0
    case Bool(_) => IntValue(arg) % 16 == 0
    case NoneArg => true
    case _ => false
  }

  predicate IsOne(arg: Arg) {
    (arg.Int? || arg.Bool?) && IntValue(arg) == 1
  }

  function DivisibleBy16(d: Decl, args: seq<Arg>): set<nat> {
    set i: nat | i < |args| && IsDivisibleBy16(args[i]) && i !in d.doNotSpecialize
  }

  function EqualTo1(d: Decl, args: seq<Arg>): set<nat> {
    set i: nat | i < |args| && IsOne(args[i]) && i !in d.doNotSpecialize
  }

  /** Constexprs, overridden by `None` arguments, overridden by arguments that are one. */
  function Constants(d: Decl, args: seq<Arg>): map<nat, Arg>
    requires |args| == |d.constexpr|
  {
    map i: nat | i < |args| && (d.constexpr[i] || args[i].NoneArg? || i in EqualTo1(d, args)) ::
      if i in EqualTo1(d, args) then Int(1) else args[i]
  }

  function Signature(d: Decl, args: seq<Arg>): map<nat, Option<string>>
    requires |args| == |d.constexpr|
  {
    map i: nat | i < |args| && !d.constexpr[i] :: TypeOf(KeyOf(args[i]))
  }

  function InputsOf(d: Decl, c: Call): Inputs
    requires |c.args| == |d.constexpr|
  {
    Inputs(Signature(d, c.args), c.device, Constants(d, c.args), c.numWarps, c.numStages, c.externLibs,
           DivisibleBy16(d, c.args), EqualTo1(d, c.args), d.debug)
  }

  predicate IsPowerOf2(n: int)
    decreases n
  {
    n > 0 && (n == 1 || (n % 2 == 0 && IsPowerOf2(n / 2)))
  }

  /** Errors that are raised before the cache is looked up. */
  predicate RaisesEarly(d: Decl, c: Call)
    requires |c.args| == |d.constexpr|
  {
    || (exists i: nat :: i < |c.args| && !d.constexpr[i] && KeyOf(c.args[i]).Unsupported?)
    || !IsPowerOf2(c.numWarps)
  }

  /** Errors that are raised before something is compiled: an unknown dtype, a callable constant. */
  predicate RaisesLate(inputs: Inputs) {
    || (exists i | i in inputs.signature :: inputs.signature[i].None?)
    || (exists i | i in inputs.constants :: inputs.constants[i].Callable?)
  }

  /** The outcome of a launch: an error, nothing (the cache hook took over), or a kernel, which is
      identified by what it was compiled from. */
  datatype Outcome = Raised | Skipped | Kernel(inputs: Inputs)

  /** What a launch without a cache gives. */
  function Fresh(d: Decl, c: Call): Outcome
    requires |c.args| == |d.constexpr|
  {
    if RaisesEarly(d, c) || RaisesLate(InputsOf(d, c)) then Raised else Kernel(InputsOf(d, c))
  }

  // ----- What is requested, argument by argument -----

  /** The type in the signature for an argument: tensors are pointers to elements of the type that
      their dtype names, `None` is a pointer to bytes, and integers have the first type that fits. */
  ghost predicate HasSignature(arg: Arg, t: Option<string>) {
    match arg
    case Tensor(dtype, _) => PointsTo(t, ElementName(dtype))
    case DtypeOnly(dtype) => PointsTo(t, ElementName(dtype))
    case Int(i) =>
      && (t == Some("i32") <==> -0x8000_0000 <= i <= 0x7fff_ffff)
      && (t == Some("u64") <==> 0x8000_0000_0000_0000 <= i <= 0xffff_ffff_ffff_ffff)
      && (t == Some("i32") || t == Some("u64") || t == Some("i64"))
    case Bool(_) => t == Some("i1")
    case Float(_) => t == Some("fp32")
    case NegativeZero => t == Some("fp32")
    case NoneArg => t == Some("*i8")
    case Callable(_) => t == None
    case Other(_) => t == None
  }

  ghost predicate PointsTo(t: Option<string>, element: Option<string>) {
    (t.Some? <==> element.Some?) && (t.Some? ==> t.value == "*" + element.value)
  }

  /** The argument is `None`, or a pointer or an integer that is a multiple of 16. */
  ghost predicate IsMultiple(arg: Arg) {
    || arg.NoneArg?
    || (arg.Tensor? && exists k: int {:trigger 16 * k} :: arg.ptr == 16 * k)
    || (arg.Int? && exists k: int {:trigger 16 * k} :: arg.i == 16 * k)
    || arg == Bool(false)
  }

  /** What the compiler is given for a launch. */
  ghost predicate IsRequest(d: Decl, c: Call, inputs: Inputs)
    requires |c.args| == |d.constexpr|
  {
    && inputs.device == c.device && inputs.numWarps == c.numWarps && inputs.numStages == c.numStages
    && inputs.externLibs == c.externLibs && inputs.debug == d.debug
    && (forall i: nat :: i in inputs.signature <==> i < |c.args| && !d.constexpr[i])
    && (forall i: nat | i < |c.args| && !d.constexpr[i] :: HasSignature(c.args[i], inputs.signature[i]))
    && (forall i: nat :: i in inputs.divisibleBy16 <==> i < |c.args| && i !in d.doNotSpecialize && IsMultiple(c.args[i]))
    && (forall i: nat :: i in inputs.equalTo1 <==>
          i < |c.args| && i !in d.doNotSpecialize && (c.args[i] == Int(1) || c.args[i] == Bool(true)))
    && (forall i: nat :: i in inputs.constants <==>
          i < |c.args| && (d.constexpr[i] || c.args[i].NoneArg? || i in inputs.equalTo1))
    && (forall i: nat | i in inputs.constants && i in inputs.equalTo1 :: inputs.constants[i] == Int(1))
    && (forall i: nat | i in inputs.constants && i !in inputs.equalTo1 :: i < |c.args| && inputs.constants[i] == c.args[i])
  }

  lemma DivisibleIsMultiple(arg: Arg)
    ensures IsDivisibleBy16(arg) <==> IsMultiple(arg)
  {
    if arg.Tensor? {
      assert arg.ptr == 16 * (arg.ptr / 16) + arg.ptr % 16;
    } else if arg.Int? {
      assert arg.i == 16 * (arg.i / 16) + arg.i % 16;
    }
  }

  lemma SignatureOf(arg: Arg)
    ensures HasSignature(arg, TypeOf(KeyOf(arg)))
  {
  }

  /** The launcher gives the compiler what the launch requests. */
  lemma {:induction false} InputsAreRequested(d: Decl, c: Call)
    requires |c.args| == |d.constexpr|
    ensures IsRequest(d, c, InputsOf(d, c))
  {
    hide HasSignature, KeyOf, TypeOf, IsDivisibleBy16, IsMultiple;
    forall i: nat | i < |c.args|
      ensures IsDivisibleBy16(c.args[i]) <==> IsMultiple(c.args[i])
      ensures HasSignature(c.args[i], TypeOf(KeyOf(c.args[i])))
    {
      DivisibleIsMultiple(c.args[i]);
      SignatureOf(c.args[i]);
    }
  }

  /** Every short name stands for itself. */
  lemma ShortNames(dtype: string)
    requires dtype in TYPE_NAMES
    ensures ElementName(TYPE_NAMES[dtype]) == Some(TYPE_NAMES[dtype])
  {
    assert TYPE_NAMES[dtype] in TYPE_NAMES.Values;
  }

  lemma SignedNames()
    ensures {"int8", "int16", "int32", "int64"} <= TYPE_NAMES.Keys
    ensures TYPE_NAMES["int8"] == "i8" && TYPE_NAMES["int16"] == "i16"
    ensures TYPE_NAMES["int32"] == "i32" && TYPE_NAMES["int64"] == "i64"
  {
  }

  lemma UnsignedNames()
    ensures {"uint8", "uint16", "uint32", "uint64", "bool"} <= TYPE_NAMES.Keys
    ensures TYPE_NAMES["uint8"] == "u8" && TYPE_NAMES["uint16"] == "u16"
    ensures TYPE_NAMES["uint32"] == "u32" && TYPE_NAMES["uint64"] == "u64" && TYPE_NAMES["bool"] == "i1"
  {
  }

  lemma FloatNames()
    ensures {"float8e5", "float8e4", "float16", "float32", "float64", "bfloat16"} <= TYPE_NAMES.Keys
    ensures TYPE_NAMES["float8e5"] == "fp8e5" && TYPE_NAMES["float8e4"] == "fp8e4" && TYPE_NAMES["bfloat16"] == "bf16"
    ensures TYPE_NAMES["float16"] == "fp16" && TYPE_NAMES["float32"] == "fp32" && TYPE_NAMES["float64"] == "fp64"
  {
  }

  function Power(k: nat): nat {
    if k == 0 then 1 else 2 * Power(k - 1)
  }

  lemma {:induction false} PowersOf2(n: int)
    ensures IsPowerOf2(n) <==> exists k: nat :: n == Power(k)
    decreases n
  {
    if n == 1 {
      assert n == Power(0);
    } else if n > 1 && n % 2 == 0 {
      PowersOf2(n / 2);
      if IsPowerOf2(n / 2) {
        var k: nat :| n / 2 == Power(k);
        assert n == Power(k + 1);
      }
      if exists k: nat :: n == Power(k) {
        var k: nat :| n == Power(k);
        var j: nat := k - 1;
        assert n / 2 == Power(j);
        assert exists j: nat :: n / 2 == Power(j);
      }
    } else if exists k: nat :: n == Power(k) {
      var k: nat :| n == Power(k);
      PositivePower(k);
    }
  }

  lemma {:induction false} PositivePower(k: nat)
    ensures Power(k) > 0 && (k > 0 ==> Power(k) % 2 == 0)
    decreases k
  {
    if k > 0 {
      PositivePower(k - 1);
      Twice(Power(k - 1));
    }
  }

  lemma Twice(n: nat)
    ensures (2 * n) % 2 == 0
  {
  }

  /** A launch fails early for regular arguments that are no tensors, numbers or `None`, and unless
      the number of warps is a power of two. */
  lemma {:induction false} EarlyErrors(d: Decl, c: Call)
    requires |c.args| == |d.constexpr|
    ensures RaisesEarly(d, c) <==>
            || (exists i: nat :: i < |c.args| && !d.constexpr[i] && (c.args[i].Callable? || c.args[i].Other?))
            || !exists k: nat :: c.numWarps == Power(k)
  {
    PowersOf2(c.numWarps);
    hide IsPowerOf2, Power;
    forall i: nat | i < |c.args|
      ensures KeyOf(c.args[i]).Unsupported? <==> c.args[i].Callable? || c.args[i].Other?
    {
    }
  }

  /** Otherwise, it fails late for tensors of unknown dtypes and for constexprs that are callable. */
  lemma {:induction false} LateErrors(d: Decl, c: Call)
    requires |c.args| == |d.constexpr| && !RaisesEarly(d, c)
    ensures RaisesLate(InputsOf(d, c)) <==>
            || (exists i: nat :: i < |c.args| && !d.constexpr[i] && (c.args[i].Tensor? || c.args[i].DtypeOnly?)
                                 && ElementName(c.args[i].dtype).None?)
            || (exists i: nat :: i < |c.args| && d.constexpr[i] && c.args[i].Callable?)
  {
    EarlyErrors(d, c);
    InputsAreRequested(d, c);
    hide RaisesEarly, InputsOf, ElementName;
    var inputs := InputsOf(d, c);
    forall i: nat | i < |c.args| && !d.constexpr[i]
      ensures inputs.signature[i].None? <==>
              (c.args[i].Tensor? || c.args[i].DtypeOnly?) && ElementName(c.args[i].dtype).None?
    {
      assert HasSignature(c.args[i], inputs.signature[i]);
    }
    forall i: nat | i in inputs.constants
      ensures inputs.constants[i].Callable? <==> d.constexpr[i] && c.args[i].Callable?
    {
      assert !d.constexpr[i] ==> !c.args[i].Callable?;
    }
  }

  // ----- Equal keys -----

  lemma {:induction false} SigKeysAt(d: Decl, a: seq<Arg>, b: seq<Arg>, n: nat)
    requires n <= |d.constexpr| == |a| == |b| && SigKeys(d, a, n) == SigKeys(d, b, n)
    ensures forall i | 0 <= i < n && !d.constexpr[i] :: KeyOf(a[i]) == KeyOf(b[i])
    decreases n
  {
    if n > 0 {
      var x, y := SigKeys(d, a, n), SigKeys(d, b, n);
      if !d.constexpr[n - 1] {
        assert x[..|x| - 1] == SigKeys(d, a, n - 1) && y[..|y| - 1] == SigKeys(d, b, n - 1);
        assert x[|x| - 1] == KeyOf(a[n - 1]) && y[|y| - 1] == KeyOf(b[n - 1]);
      } else {
        assert x == SigKeys(d, a, n - 1) && y == SigKeys(d, b, n - 1);
      }
      SigKeysAt(d, a, b, n - 1);
    }
  }

  lemma {:induction false} SpecKeysAt(d: Decl, a: seq<Arg>, b: seq<Arg>, n: nat)
    requires n <= |d.constexpr| == |a| == |b| && SpecKeys(d, a, n) == SpecKeys(d, b, n)
    ensures forall i | 0 <= i < n && KeySpecializes(d, i) :: SpecializationKey(a[i]) == SpecializationKey(b[i])
    decreases n
  {
    if n > 0 {
      var x, y := SpecKeys(d, a, n), SpecKeys(d, b, n);
      if KeySpecializes(d, n - 1) {
        assert x[..|x| - 1] == SpecKeys(d, a, n - 1) && y[..|y| - 1] == SpecKeys(d, b, n - 1);
        assert x[|x| - 1] == SpecializationKey(a[n - 1]) && y[|y| - 1] == SpecializationKey(b[n - 1]);
      } else {
        assert x == SpecKeys(d, a, n - 1) && y == SpecKeys(d, b, n - 1);
      }
      SpecKeysAt(d, a, b, n - 1);
    }
  }

  lemma {:induction false} ConstexprKeysAt(d: Decl, a: seq<Arg>, b: seq<Arg>, n: nat)
    requires n <= |d.constexpr| == |a| == |b| && ConstexprKeys(d, a, n) == ConstexprKeys(d, b, n)
    ensures forall i | 0 <= i < n && d.constexpr[i] :: Compared(a[i]) == Compared(b[i])
    decreases n
  {
    if n > 0 {
      var x, y := ConstexprKeys(d, a, n), ConstexprKeys(d, b, n);
      if d.constexpr[n - 1] {
        assert x[..|x| - 1] == ConstexprKeys(d, a, n - 1) && y[..|y| - 1] == ConstexprKeys(d, b, n - 1);
        assert x[|x| - 1] == Compared(a[n - 1]) && y[|y| - 1] == Compared(b[n - 1]);
      } else {
        assert x == ConstexprKeys(d, a, n - 1) && y == ConstexprKeys(d, b, n - 1);
      }
      ConstexprKeysAt(d, a, b, n - 1);
    }
  }

  lemma {:induction false} EqualPartsGiveEqualKeys(d: Decl, a: seq<Arg>, b: seq<Arg>, n: nat)
    requires n <= |d.constexpr| == |a| == |b|
    requires forall i | 0 <= i < n && d.constexpr[i] :: Compared(a[i]) == Compared(b[i])
    requires forall i | 0 <= i < n && !d.constexpr[i] :: KeyOf(a[i]) == KeyOf(b[i])
    requires forall i | 0 <= i < n && KeySpecializes(d, i) :: SpecializationKey(a[i]) == SpecializationKey(b[i])
    ensures SigKeys(d, a, n) == SigKeys(d, b, n) && SpecKeys(d, a, n) == SpecKeys(d, b, n)
    ensures ConstexprKeys(d, a, n) == ConstexprKeys(d, b, n)
    decreases n
  {
    hide KeyOf, SpecializationKey, Compared, KeySpecializes;
    if n > 0 {
      EqualPartsGiveEqualKeys(d, a, b, n - 1);
    }
  }

  // ----- When keys are equal -----

  ghost function RegularBefore(d: Decl, n: nat): set<int>
    requires n <= |d.constexpr|
  {
    set j | 0 <= j < n && !d.constexpr[j]
  }

  lemma RegularBeforeStep(d: Decl, n: nat)
    requires n < |d.constexpr|
    ensures n !in RegularBefore(d, n)
    ensures RegularBefore(d, n + 1) == RegularBefore(d, n) + if d.constexpr[n] then {} else {n}
  {
  }

  lemma NoneBefore(d: Decl)
    ensures RegularBefore(d, 0) == {}
  {
  }

  /** The rank of a parameter is the number of regular parameters before it. */
  lemma {:induction false} RankIsCount(d: Decl, n: nat)
    requires n <= |d.constexpr|
    ensures Rank(d, n) == |RegularBefore(d, n)|
    decreases n
  {
    hide RegularBefore;
    if n == 0 {
      NoneBefore(d);
    } else {
      RankIsCount(d, n - 1);
      RegularBeforeStep(d, n - 1);
    }
  }

  ghost predicate IsNumber(arg: Arg) {
    arg.Int? || arg.Bool? || arg.Float? || arg.NegativeZero?
  }

  ghost function NumberOf(arg: Arg): real
    requires IsNumber(arg)
  {
    match arg
    case Int(i) => i as real
    case Bool(b) => if b then 1.0 else 0.0
    case Float(r) => r
    case NegativeZero => 0.0
  }

  /** Python takes the values for equal: numbers of equal value, or the same object. */
  ghost predicate EqualValues(x: Arg, y: Arg) {
    if IsNumber(x) && IsNumber(y) then NumberOf(x) == NumberOf(y) else x == y
  }

  /** The arguments have the same dtype, or both have none and are passed as the same type. */
  ghost predicate EqualTypes(x: Arg, y: Arg) {
    match x
    case Tensor(dtype, _) => (y.Tensor? || y.DtypeOnly?) && y.dtype == dtype
    case DtypeOnly(dtype) => (y.Tensor? || y.DtypeOnly?) && y.dtype == dtype
    case Int(i) =>
      && y.Int? && (-0x8000_0000 <= i <= 0x7fff_ffff <==> -0x8000_0000 <= y.i <= 0x7fff_ffff)
      && (0x8000_0000_0000_0000 <= i <= 0xffff_ffff_ffff_ffff <==> 0x8000_0000_0000_0000 <= y.i <= 0xffff_ffff_ffff_ffff)
    case Bool(_) => y.Bool?
    case Float(_) => y.Float? || y.NegativeZero?
    case NegativeZero => y.Float? || y.NegativeZero?
    case NoneArg => y.NoneArg?
    case Callable(_) => y.Callable? || y.Other?
    case Other(_) => y.Callable? || y.Other?
  }

  /** Two pointers, or two integers, agree on being multiples of 16, and integers on being one. */
  ghost predicate EqualSpecializations(x: Arg, y: Arg) {
    && (x.Tensor? <==> y.Tensor?) && (x.Int? || x.Bool? <==> y.Int? || y.Bool?)
    && (x.Tensor? || x.Int? || x.Bool? ==> (IsMultiple(x) <==> IsMultiple(y)))
    && (x == Int(1) || x == Bool(true) <==> y == Int(1) || y == Bool(true))
  }

  lemma EqualKeyParts(x: Arg, y: Arg)
    ensures SpecializationKey(x) == SpecializationKey(y) <==> EqualSpecializations(x, y)
  {
    DivisibleIsMultiple(x);
    DivisibleIsMultiple(y);
    hide IsMultiple;
  }

  lemma EqualParts(x: Arg, y: Arg)
    ensures Compared(x) == Compared(y) <==> EqualValues(x, y)
    ensures KeyOf(x) == KeyOf(y) <==> EqualTypes(x, y)
    ensures SpecializationKey(x) == SpecializationKey(y) <==> EqualSpecializations(x, y)
  {
    hide SpecializationKey, EqualSpecializations;
    EqualKeyParts(x, y);
  }

  /** Two calls of a function have the same key exactly if they agree on the options, on the values
      of constexprs, on the types of regular arguments, and on the specializations of those that are
      not skipped by their rank. */
  ghost predicate AgreeOnKey(d: Decl, a: Call, b: Call)
    requires |a.args| == |b.args| == |d.constexpr|
  {
    && a.numWarps == b.numWarps && a.numStages == b.numStages && a.externLibs == b.externLibs
    && (forall i | 0 <= i < |a.args| && d.constexpr[i] :: EqualValues(a.args[i], b.args[i]))
    && (forall i | 0 <= i < |a.args| && !d.constexpr[i] :: EqualTypes(a.args[i], b.args[i]))
    && (forall i | 0 <= i < |a.args| && !d.constexpr[i] && Rank(d, i) !in d.doNotSpecialize ::
          EqualSpecializations(a.args[i], b.args[i]))
  }

  lemma {:induction false} KeysAreEqual(d: Decl, a: Call, b: Call)
    requires |a.args| == |b.args| == |d.constexpr|
    ensures KeyOfCall(d, a) == KeyOfCall(d, b) <==> AgreeOnKey(d, a, b)
  {
    hide KeyOf, SpecializationKey, Compared, EqualValues, EqualTypes, EqualSpecializations, SigKeys, SpecKeys, ConstexprKeys;
    forall i | 0 <= i < |a.args|
      ensures Compared(a.args[i]) == Compared(b.args[i]) <==> EqualValues(a.args[i], b.args[i])
      ensures KeyOf(a.args[i]) == KeyOf(b.args[i]) <==> EqualTypes(a.args[i], b.args[i])
      ensures SpecializationKey(a.args[i]) == SpecializationKey(b.args[i]) <==> EqualSpecializations(a.args[i], b.args[i])
    {
      EqualParts(a.args[i], b.args[i]);
    }
    if KeyOfCall(d, a) == KeyOfCall(d, b) {
      SigKeysAt(d, a.args, b.args, |a.args|);
      SpecKeysAt(d, a.args, b.args, |a.args|);
      ConstexprKeysAt(d, a.args, b.args, |a.args|);
    }
    if AgreeOnKey(d, a, b) {
      EqualPartsGiveEqualKeys(d, a.args, b.args, |a.args|);
    }
  }

  /** A parameter that the key does not specialize is not specialized by the compiler either. */
  predicate Coherent(d: Decl) {
    forall i | 0 <= i < |d.constexpr| && !d.constexpr[i] :: Rank(d, i) in d.doNotSpecialize ==> i in d.doNotSpecialize
  }

  /** Two constexpr values the compiler cannot tell apart: the same value of the same type, or two
      ones, if the compiler replaces ones. */
  predicate Interchangeable(d: Decl, i: nat, x: Arg, y: Arg) {
    x == y || (IsOne(x) && IsOne(y) && i !in d.doNotSpecialize)
  }

  predicate SameConstexprs(d: Decl, a: seq<Arg>, b: seq<Arg>)
    requires |a| == |b| == |d.constexpr|
  {
    forall i | 0 <= i < |a| && d.constexpr[i] :: Interchangeable(d, i, a[i], b[i])
  }

  /** For one argument, equal keys give equal specializations and equal `None`-ness. */
  lemma SameSpecialization(x: Arg, y: Arg)
    requires KeyOf(x) == KeyOf(y) && !KeyOf(x).Unsupported?
    ensures x.NoneArg? <==> y.NoneArg?
    ensures SpecializationKey(x) == SpecializationKey(y) ==>
              IsDivisibleBy16(x) == IsDivisibleBy16(y) && IsOne(x) == IsOne(y)
  {
  }

  /** Equal keys give equal specializations of all arguments. */
  lemma {:induction false} EqualKeysSpecialize(d: Decl, a: seq<Arg>, b: seq<Arg>)
    requires Coherent(d) && |a| == |b| == |d.constexpr| && SameConstexprs(d, a, b)
    requires forall i | 0 <= i < |a| && !d.constexpr[i] :: !KeyOf(a[i]).Unsupported?
    requires SigKeys(d, a, |a|) == SigKeys(d, b, |b|) && SpecKeys(d, a, |a|) == SpecKeys(d, b, |b|)
    ensures DivisibleBy16(d, a) == DivisibleBy16(d, b) && EqualTo1(d, a) == EqualTo1(d, b)
    ensures Signature(d, a) == Signature(d, b) && Constants(d, a) == Constants(d, b)
  {
    SigKeysAt(d, a, b, |a|);
    SpecKeysAt(d, a, b, |a|);
    forall i | 0 <= i < |a|
      ensures i !in d.doNotSpecialize ==> IsDivisibleBy16(a[i]) == IsDivisibleBy16(b[i]) && IsOne(a[i]) == IsOne(b[i])
      ensures !d.constexpr[i] ==> (a[i].NoneArg? <==> b[i].NoneArg?)
    {
      if d.constexpr[i] {
        assert Interchangeable(d, i, a[i], b[i]);
      } else {
        SameSpecialization(a[i], b[i]);
        assert i !in d.doNotSpecialize ==> KeySpecializes(d, i);
      }
    }
    assert EqualTo1(d, a) == EqualTo1(d, b);
    assert Signature(d, a) == Signature(d, b);
    forall i: nat | i < |a| && (d.constexpr[i] || a[i].NoneArg? || i in EqualTo1(d, a))
      ensures (if i in EqualTo1(d, a) then Int(1) else a[i]) == (if i in EqualTo1(d, b) then Int(1) else b[i])
    {
      if d.constexpr[i] {
        assert Interchangeable(d, i, a[i], b[i]);
      }
    }
    assert Constants(d, a).Keys == Constants(d, b).Keys;
  }

  /** Two launches with equal keys on the same device compile the same exactly if their constexpr
      values, which Python considers equal, are interchangeable. */
  lemma {:induction false} EqualKeysCompileTheSame(d: Decl, a: Call, b: Call)
    requires Coherent(d) && |a.args| == |b.args| == |d.constexpr| && a.device == b.device
    requires KeyOfCall(d, a) == KeyOfCall(d, b) && !RaisesEarly(d, a)
    ensures InputsOf(d, a) == InputsOf(d, b) <==> SameConstexprs(d, a.args, b.args)
  {
    if SameConstexprs(d, a.args, b.args) {
      EqualKeysSpecialize(d, a.args, b.args);
    }
    if InputsOf(d, a) == InputsOf(d, b) {
      forall i | 0 <= i < |a.args| && d.constexpr[i]
        ensures Interchangeable(d, i, a.args[i], b.args[i])
      {
        assert i in Constants(d, a.args) && i in Constants(d, b.args);
        assert Constants(d, a.args)[i] == Constants(d, b.args)[i];
        assert i in EqualTo1(d, a.args) <==> i in EqualTo1(d, b.args);
      }
    }
  }

  /** A launch whose key has been compiled for before, would compile the same. */
  lemma {:induction false} EqualKeysFresh(d: Decl, a: Call, b: Call)
    requires Coherent(d) && |a.args| == |b.args| == |d.constexpr| && a.device == b.device
    requires KeyOfCall(d, a) == KeyOfCall(d, b) && !RaisesEarly(d, a)
    requires SameConstexprs(d, a.args, b.args) && Fresh(d, b).Kernel?
    ensures Fresh(d, a) == Fresh(d, b)
  {
    EqualKeysCompileTheSame(d, a, b);
  }

  lemma FreshOutcome(d: Decl, c: Call)
    requires |c.args| == |d.constexpr|
    ensures RaisesEarly(d, c) || RaisesLate(InputsOf(d, c)) ==> Fresh(d, c) == Raised
    ensures !RaisesEarly(d, c) && !RaisesLate(InputsOf(d, c)) ==> Fresh(d, c) == Kernel(InputsOf(d, c))
  {
  }

  /** Zero and false are equal to Python: the second launch gets the kernel of the first. */
  lemma ZeroIsNotFalse()
    ensures var d := Decl([true, false], {}, false);
            var a, b := Call([Int(0), Int(3)], 4, 3, None, 0, false), Call([Bool(false), Int(3)], 4, 3, None, 0, false);
            Coherent(d) && KeyOfCall(d, a) == KeyOfCall(d, b) && Fresh(d, a) != Fresh(d, b)
  {
    var d := Decl([true, false], {}, false);
    var a, b := Call([Int(0), Int(3)], 4, 3, None, 0, false), Call([Bool(false), Int(3)], 4, 3, None, 0, false);
    ZerosShareKeys(d, a.args, b.args);
    ZeroCompiles(d, a);
    hide KeyOfCall, RaisesEarly, RaisesLate, ConstexprKeys, SigKeys, SpecKeys;
    assert Constants(d, a.args)[0] == Int(0) && Constants(d, b.args)[0] == Bool(false);
    assert InputsOf(d, a) != InputsOf(d, b);
  }

  /** The two zeros of type float are equal to Python as well. */
  lemma ZeroIsNotNegativeZero()
    ensures var d := Decl([true, false], {}, false);
            var a, b := Call([Float(0.0), Int(3)], 4, 3, None, 0, false), Call([NegativeZero, Int(3)], 4, 3, None, 0, false);
            Coherent(d) && KeyOfCall(d, a) == KeyOfCall(d, b) && InputsOf(d, a) != InputsOf(d, b)
  {
    var d := Decl([true, false], {}, false);
    var a, b := Call([Float(0.0), Int(3)], 4, 3, None, 0, false), Call([NegativeZero, Int(3)], 4, 3, None, 0, false);
    ZerosShareKeys(d, a.args, b.args);
    assert Constants(d, a.args)[0] == Float(0.0) && Constants(d, b.args)[0] == NegativeZero;
  }

  lemma ZerosShareKeys(d: Decl, a: seq<Arg>, b: seq<Arg>)
    requires d == Decl([true, false], {}, false) && |a| == |b| == 2 && a[1] == b[1] && Compared(a[0]) == Compared(b[0])
    ensures SigKeys(d, a, 2) == SigKeys(d, b, 2) && SpecKeys(d, a, 2) == SpecKeys(d, b, 2)
    ensures ConstexprKeys(d, a, 2) == ConstexprKeys(d, b, 2)
  {
    assert SigKeys(d, a, 0) == SigKeys(d, b, 0) && SpecKeys(d, a, 0) == SpecKeys(d, b, 0);
    assert ConstexprKeys(d, a, 0) == ConstexprKeys(d, b, 0);
    assert SigKeys(d, a, 1) == SigKeys(d, b, 1) && SpecKeys(d, a, 1) == SpecKeys(d, b, 1);
    assert ConstexprKeys(d, a, 1) == ConstexprKeys(d, b, 1);
  }

  lemma ZeroCompiles(d: Decl, c: Call)
    requires d == Decl([true, false], {}, false) && c.args == [Int(0), Int(3)] && c.numWarps == 4
    ensures !RaisesEarly(d, c) && !RaisesLate(InputsOf(d, c))
  {
    assert IsPowerOf2(4);
  }

  // ----- When the key is good enough -----

  /** Two launches with the same key and the same constexpr values compile the same. */
  ghost predicate KeyDeterminesKernel(d: Decl) {
    forall a: Call, b: Call |
      && |a.args| == |b.args| == |d.constexpr| && a.device == b.device
      && !RaisesEarly(d, a)
      && SameConstexprs(d, a.args, b.args)
      && KeyOfCall(d, a) == KeyOfCall(d, b) :: InputsOf(d, a) == InputsOf(d, b)
  }

  lemma {:induction false} SameKeys(d: Decl, a: seq<Arg>, b: seq<Arg>, j: nat, n: nat)
    requires |a| == |b| == |d.constexpr| && j < |a| && n <= |a| && !KeySpecializes(d, j) && !d.constexpr[j]
    requires forall i | 0 <= i < |a| && i != j :: a[i] == b[i]
    requires KeyOf(a[j]) == KeyOf(b[j])
    ensures SigKeys(d, a, n) == SigKeys(d, b, n) && SpecKeys(d, a, n) == SpecKeys(d, b, n)
    ensures ConstexprKeys(d, a, n) == ConstexprKeys(d, b, n)
    decreases n
  {
    if n > 0 {
      SameKeys(d, a, b, j, n - 1);
    }
  }

  /** The key determines the compiled kernel exactly for coherent functions. If a parameter is
      skipped in the key by its rank, but not by the compiler by its position, then a launch with
      16 and one with 3 share a kernel that is specialized to multiples of 16. */
  lemma {:induction false} KeyDeterminesKernelIffCoherent(d: Decl)
    ensures KeyDeterminesKernel(d) <==> Coherent(d)
  {
    if Coherent(d) {
      forall a: Call, b: Call |
        && |a.args| == |b.args| == |d.constexpr| && a.device == b.device
        && !RaisesEarly(d, a)
        && SameConstexprs(d, a.args, b.args)
        && KeyOfCall(d, a) == KeyOfCall(d, b)
        ensures InputsOf(d, a) == InputsOf(d, b)
      {
        EqualKeysCompileTheSame(d, a, b);
      }
    } else {
      SharedKernel(d);
    }
  }

  /** A launch that passes 3 for every parameter, except for parameter `j`. */
  function Probe(d: Decl, j: nat, x: int): (c: Call)
    requires j < |d.constexpr|
    ensures |c.args| == |d.constexpr|
  {
    Call(seq(|d.constexpr|, k => if k == j then Int(x) else Int(3)), 1, 3, None, 0, false)
  }

  lemma {:induction false} ProbesShareKeys(d: Decl, j: nat)
    requires j < |d.constexpr| && !d.constexpr[j] && !KeySpecializes(d, j)
    ensures KeyOfCall(d, Probe(d, j, 16)) == KeyOfCall(d, Probe(d, j, 3))
    ensures SameConstexprs(d, Probe(d, j, 16).args, Probe(d, j, 3).args)
    ensures !RaisesEarly(d, Probe(d, j, 16))
  {
    var a, b := Probe(d, j, 16), Probe(d, j, 3);
    SameKeys(d, a.args, b.args, j, |a.args|);
    assert IsPowerOf2(1);
  }

  lemma {:induction false} ProbesCompileDifferently(d: Decl, j: nat)
    requires j < |d.constexpr| && j !in d.doNotSpecialize
    ensures InputsOf(d, Probe(d, j, 16)) != InputsOf(d, Probe(d, j, 3))
  {
    hide Constants, Signature, EqualTo1;
    var a, b := Probe(d, j, 16), Probe(d, j, 3);
    assert j in DivisibleBy16(d, a.args) && j !in DivisibleBy16(d, b.args);
  }

  /** For a function that is not coherent, two launches with one key that compile differently. */
  lemma {:induction false} SharedKernel(d: Decl)
    requires !Coherent(d)
    ensures !KeyDeterminesKernel(d)
  {
    hide InputsOf, KeyOfCall, RaisesEarly, SameConstexprs, Probe;
    var j :| 0 <= j < |d.constexpr| && !d.constexpr[j] && Rank(d, j) in d.doNotSpecialize && j !in d.doNotSpecialize;
    ProbesShareKeys(d, j);
    ProbesCompileDifferently(d, j);
    ProbeDevices(d, j);
  }

  lemma ProbeDevices(d: Decl, j: nat)
    requires j < |d.constexpr|
    ensures Probe(d, j, 16).device == Probe(d, j, 3).device
  {
  }

  lemma {:induction false} ProbeCompiles(d: Decl, j: nat)
    requires j < |d.constexpr|
    ensures Fresh(d, Probe(d, j, 16)) == Kernel(InputsOf(d, Probe(d, j, 16))) && !Probe(d, j, 16).hookSkips
  {
    assert IsPowerOf2(1);
  }

  /** A constexpr before two regular parameters, the first of which, parameter 1, is not to be
      specialized: the key skips parameter 2 instead, which has rank 1. */
  lemma SkippedByRank()
    ensures var d := Decl([true, false, false], {1}, false);
            var a, b := Probe(d, 2, 16), Probe(d, 2, 3);
            !Coherent(d) && KeyOfCall(d, a) == KeyOfCall(d, b) && InputsOf(d, a) != InputsOf(d, b)
  {
    var d := Decl([true, false, false], {1}, false);
    assert Rank(d, 0) == 0 && Rank(d, 1) == 0 && Rank(d, 2) == 1;
    hide InputsOf, KeyOfCall, RaisesEarly, SameConstexprs, Probe;
    ProbesShareKeys(d, 2);
    ProbesCompileDifferently(d, 2);
  }

  // ----- The cache -----

  /** Calls that Python considers to have equal constexpr values have interchangeable ones. */
  ghost predicate TypedConstexprs(d: Decl, calls: set<Call>) {
    forall a, b | a in calls && b in calls && |a.args| == |b.args| == |d.constexpr|
                  && KeyOfCall(d, a) == KeyOfCall(d, b) :: SameConstexprs(d, a.args, b.args)
  }

  lemma FewerCalls(d: Decl, some: set<Call>, all: set<Call>)
    requires some <= all && TypedConstexprs(d, all)
    ensures TypedConstexprs(d, some)
  {
  }

  type Kernels = map<int, map<Key, Inputs>>

  predicate InCache(cache: Kernels, device: int, key: Key) {
    device in cache && key in cache[device]
  }

  /** The launch has the key and compiles to the kernel. */
  predicate CompilesTo(d: Decl, c: Call, device: int, key: Key, kernel: Inputs) {
    && |c.args| == |d.constexpr| && c.device == device && KeyOfCall(d, c) == key
    && Fresh(d, c) == Kernel(kernel)
  }

  /** Every kernel in the cache has been compiled for a launch with its key. */
  ghost predicate ValidCache(d: Decl, cache: Kernels, history: set<Call>) {
    forall device, key | InCache(cache, device, key) ::
      exists c | c in history :: CompilesTo(d, c, device, key, cache[device][key])
  }

  /** All kernels of one cache are in another. */
  ghost predicate Keeps(before: Kernels, after: Kernels) {
    forall device, key | InCache(before, device, key) ::
      InCache(after, device, key) && after[device][key] == before[device][key]
  }

  function KernelsOf(cache: Kernels, device: int): map<Key, Inputs> {
    if device in cache then cache[device] else map[]
  }

  /** The cache with a kernel for a key; nothing changes if the kernel is there already. */
  function Stored(cache: Kernels, device: int, key: Key, kernel: Inputs): Kernels {
    if InCache(cache, device, key) && cache[device][key] == kernel then cache
    else cache[device := KernelsOf(cache, device)[key := kernel]]
  }

  lemma ValidCacheMoreHistory(d: Decl, cache: Kernels, history: set<Call>, c: Call)
    requires ValidCache(d, cache, history)
    ensures ValidCache(d, cache, history + {c})
  {
    forall device, key | InCache(cache, device, key)
      ensures exists b | b in history + {c} :: CompilesTo(d, b, device, key, cache[device][key])
    {
      var b :| b in history && CompilesTo(d, b, device, key, cache[device][key]);
      assert b in history + {c};
    }
  }

  lemma ValidCacheStore(d: Decl, cache: Kernels, history: set<Call>, c: Call, key: Key, kernel: Inputs)
    requires ValidCache(d, cache, history) && c in history && CompilesTo(d, c, c.device, key, kernel)
    requires !InCache(cache, c.device, key)
    ensures var cache' := Stored(cache, c.device, key, kernel);
            ValidCache(d, cache', history) && Keeps(cache, cache') && InCache(cache', c.device, key)
  {
    hide CompilesTo;
    var cache' := Stored(cache, c.device, key, kernel);
    forall device, k | InCache(cache', device, k)
      ensures exists b | b in history :: CompilesTo(d, b, device, k, cache'[device][k])
    {
      if device == c.device && k == key {
        assert c in history && CompilesTo(d, c, device, k, cache'[device][k]);
      } else {
        assert InCache(cache, device, k) && cache'[device][k] == cache[device][k];
      }
    }
  }

  /** A kernel found in the cache is what the launch itself would compile. */
  lemma CacheHit(d: Decl, cache: Kernels, history: set<Call>, c: Call)
    requires Coherent(d) && |c.args| == |d.constexpr| && !RaisesEarly(d, c)
    requires ValidCache(d, cache, history) && c in history && TypedConstexprs(d, history)
    requires InCache(cache, c.device, KeyOfCall(d, c))
    ensures Fresh(d, c) == Kernel(cache[c.device][KeyOfCall(d, c)])
  {
    hide KeyOfCall, Fresh, RaisesEarly, SameConstexprs;
    var key := KeyOfCall(d, c);
    var b :| b in history && CompilesTo(d, b, c.device, key, cache[c.device][key]);
    EqualKeysFresh(d, c, b);
  }

  class JitFunction {
    const decl: Decl
    /** Per device, the kernels compiled so far. */
    var cache: Kernels
    /** The launches so far. */
    ghost var history: set<Call>

    constructor (decl: Decl)
      ensures this.decl == decl && history == {} && cache == map[] && Valid()
    {
      this.decl := decl;
      cache := map[];
      history := {};
    }

    ghost predicate Valid()
      reads this
    {
      ValidCache(decl, cache, history)
    }

    /** The launcher. A kernel that it returns has been compiled for a launch with the same key. For
        coherent functions and typed constexprs, that is what the launch itself would compile. */
    method Launch(c: Call) returns (r: Outcome)
      requires Valid() && |c.args| == |decl.constexpr|
      modifies this
      ensures Valid() && history == old(history) + {c}
      ensures var key := KeyOfCall(decl, c);
              && (RaisesEarly(decl, c) ==> r == Raised)
              && (!RaisesEarly(decl, c) && InCache(old(cache), c.device, key) ==>
                    r == Kernel(old(cache)[c.device][key]))
              && (!RaisesEarly(decl, c) && !InCache(old(cache), c.device, key) ==>
                    r == if c.hookSkips && Fresh(decl, c).Kernel? then Skipped else Fresh(decl, c))
              && (r.Kernel? && !InCache(old(cache), c.device, key) ==> IsRequest(decl, c, r.inputs))
      ensures r.Kernel? ==> exists b | b in history :: CompilesTo(decl, b, c.device, KeyOfCall(decl, c), r.inputs)
      ensures Coherent(decl) && TypedConstexprs(decl, history) && r.Kernel? ==> r == Fresh(decl, c)
      ensures Coherent(decl) && TypedConstexprs(decl, history) ==> (r.Raised? <==> Fresh(decl, c).Raised?)
      ensures cache == if r.Kernel? then Stored(old(cache), c.device, KeyOfCall(decl, c), r.inputs) else old(cache)
      ensures Keeps(old(cache), cache)
    {
      FreshOutcome(decl, c);
      InputsAreRequested(decl, c);
      ValidCacheMoreHistory(decl, cache, history, c);
      hide IsRequest, Fresh, InputsOf, RaisesEarly, RaisesLate, KeyOfCall, Coherent, TypedConstexprs;
      history := history + {c};
      var key := KeyOfCall(decl, c);
      if RaisesEarly(decl, c) {
        return Raised;
      }
      var kernels := KernelsOf(cache, c.device);
      if key in kernels {
        if Coherent(decl) && TypedConstexprs(decl, history) {
          CacheHit(decl, cache, history, c);
        }
        return Kernel(kernels[key]);
      }
      var inputs := InputsOf(decl, c);
      if RaisesLate(inputs) {
        return Raised;
      }
      if c.hookSkips {
        return Skipped;
      }
      ValidCacheStore(decl, cache, history, c, key, inputs);
      assert CompilesTo(decl, c, c.device, key, inputs);
      cache := cache[c.device := kernels[key := inputs]];
      return Kernel(inputs);
    }
  }

  ghost function FirstCalls(calls: seq<Call>, n: nat): set<Call>
    requires n <= |calls|
  {
    set j | 0 <= j < n :: calls[j]
  }

  lemma FirstCallsStep(calls: seq<Call>, n: nat)
    requires n < |calls|
    ensures FirstCalls(calls, 0) == {} && FirstCalls(calls, n + 1) == FirstCalls(calls, n) + {calls[n]}
    ensures FirstCalls(calls, n + 1) <= FirstCalls(calls, |calls|)
  {
  }

  /** A kernel that has been compiled for one of the first `n` launches, with the given key, from
      what that launch requests. */
  ghost predicate CompiledBefore(d: Decl, calls: seq<Call>, n: nat, device: int, key: Key, kernel: Inputs) {
    exists j | 0 <= j < |calls| && j < n :: CompilesTo(d, calls[j], device, key, kernel) && IsRequest(d, calls[j], kernel)
  }

  lemma CompiledInHistory(d: Decl, calls: seq<Call>, n: nat, history: set<Call>, device: int, key: Key, kernel: Inputs)
    requires n <= |calls| && history <= FirstCalls(calls, n)
    requires exists b | b in history :: CompilesTo(d, b, device, key, kernel)
    ensures CompiledBefore(d, calls, n, device, key, kernel)
  {
    var b :| b in history && CompilesTo(d, b, device, key, kernel);
    var j :| 0 <= j < |calls| && j < n && calls[j] == b;
    FreshOutcome(d, b);
    InputsAreRequested(d, b);
    hide IsRequest;
  }

  /** Any sequence of launches: each kernel has been compiled for this launch or an earlier one with
      the same key; for coherent functions and typed constexprs it is the one that its launch alone
      would compile. */
  method LaunchAll(d: Decl, calls: seq<Call>) returns (outcomes: seq<Outcome>)
    requires forall k | 0 <= k < |calls| :: |calls[k].args| == |d.constexpr|
    ensures |outcomes| == |calls|
    ensures forall k | 0 <= k < |calls| && outcomes[k].Kernel? ::
              CompiledBefore(d, calls, k + 1, calls[k].device, KeyOfCall(d, calls[k]), outcomes[k].inputs)
    ensures forall k | 0 <= k < |calls| && outcomes[k].Skipped? :: calls[k].hookSkips
    ensures Coherent(d) && TypedConstexprs(d, FirstCalls(calls, |calls|)) ==>
              forall k | 0 <= k < |calls| :: Right(d, calls[k], outcomes[k])
  {
    hide TypedConstexprs, Fresh, Coherent, CompilesTo, KeyOfCall, RaisesEarly, CompiledBefore, Right, FirstCalls;
    var f := new JitFunction(d);
    outcomes := [];
    ghost var all := FirstCalls(calls, |calls|);
    for k := 0 to |calls|
      invariant f.Valid() && f.decl == d && fresh(f)
      invariant f.history <= FirstCalls(calls, k)
      invariant |outcomes| == k
      invariant forall n | 0 <= n < k && outcomes[n].Kernel? ::
                  CompiledBefore(d, calls, n + 1, calls[n].device, KeyOfCall(d, calls[n]), outcomes[n].inputs)
      invariant forall n | 0 <= n < k && outcomes[n].Skipped? :: calls[n].hookSkips
      invariant Coherent(d) && TypedConstexprs(d, all) ==> forall n | 0 <= n < k :: Right(d, calls[n], outcomes[n])
    {
      var c := calls[k];
      var r := f.Launch(c);
      FirstCallsStep(calls, k);
      if r.Kernel? {
        CompiledInHistory(d, calls, k + 1, f.history, c.device, KeyOfCall(d, c), r.inputs);
      }
      if Coherent(d) && TypedConstexprs(d, all) {
        assert f.history <= all;
        FewerCalls(d, f.history, all);
        RightOutcome(d, c, r);
      }
      FreshIsNotSkipped(d, c);
      outcomes := outcomes + [r];
    }
  }

  /** A launch without a cache is not skipped. */
  lemma FreshIsNotSkipped(d: Decl, c: Call)
    requires |c.args| == |d.constexpr|
    ensures !Fresh(d, c).Skipped?
  {
  }

  /** The outcome of a launch is that of a launch without a cache, unless the hook has taken over. */
  predicate Right(d: Decl, c: Call, r: Outcome)
    requires |c.args| == |d.constexpr|
  {
    (r.Kernel? ==> r == Fresh(d, c)) && (r.Raised? <==> Fresh(d, c).Raised?)
  }

  lemma RightOutcome(d: Decl, c: Call, r: Outcome)
    requires |c.args| == |d.constexpr|
    requires (r.Kernel? ==> r == Fresh(d, c)) && (r.Raised? <==> Fresh(d, c).Raised?)
    ensures Right(d, c, r)
  {
  }

  // ----- Launches that get the wrong kernel -----

  /** Launches with equal keys on one device raise the same early errors. */
  lemma {:induction false} EqualKeysRaiseEarly(d: Decl, a: Call, b: Call)
    requires |a.args| == |b.args| == |d.constexpr| && KeyOfCall(d, a) == KeyOfCall(d, b)
    ensures RaisesEarly(d, a) <==> RaisesEarly(d, b)
  {
    SigKeysAt(d, a.args, b.args, |a.args|);
  }

  lemma NothingCached(device: int, key: Key)
    ensures !InCache(map[], device, key)
  {
  }

  lemma StoredIsCached(cache: Kernels, device: int, key: Key, kernel: Inputs)
    ensures InCache(Stored(cache, device, key, kernel), device, key)
    ensures Stored(cache, device, key, kernel)[device][key] == kernel
  {
  }

  /** Two launches, one after the other, with equal keys: the second gets the kernel of the first,
      and that is the right one exactly if both compile from the same inputs. */
  method LaunchTwice(d: Decl, a: Call, b: Call) returns (first: Outcome, second: Outcome)
    requires |a.args| == |b.args| == |d.constexpr| && a.device == b.device
    requires KeyOfCall(d, a) == KeyOfCall(d, b) && Fresh(d, a).Kernel? && !a.hookSkips
    ensures first == Fresh(d, a) && second == first
    ensures second == Fresh(d, b) <==> InputsOf(d, a) == InputsOf(d, b)
  {
    FreshOutcome(d, a);
    FreshOutcome(d, b);
    EqualKeysRaiseEarly(d, a, b);
    hide Fresh, InputsOf, RaisesEarly, RaisesLate, KeyOfCall, Coherent, TypedConstexprs, CompilesTo, IsRequest, Keeps,
      Stored, InCache, ValidCache;
    var f := new JitFunction(d);
    NothingCached(a.device, KeyOfCall(d, a));
    first := f.Launch(a);
    StoredIsCached(map[], a.device, KeyOfCall(d, a), first.inputs);
    second := f.Launch(b);
  }

  /** A launch with a multiple of 16 and then one without, for a parameter that the key skips by its
      rank: the second launch gets a kernel that is specialized to multiples of 16. */
  method LaunchSkippedByRank() returns (first: Outcome, second: Outcome)
    ensures var d := Decl([true, false, false], {1}, false);
            var a, b := Probe(d, 2, 16), Probe(d, 2, 3);
            first == second == Fresh(d, a) && second != Fresh(d, b)
  {
    hide Fresh, InputsOf, KeyOfCall, Probe, Coherent, SigKeys;
    SkippedByRank();
    var d := Decl([true, false, false], {1}, false);
    ProbeCompiles(d, 2);
    ProbeDevices(d, 2);
    first, second := LaunchTwice(d, Probe(d, 2, 16), Probe(d, 2, 3));
  }

  /** A launch with the constexpr zero and then one with false. */
  method LaunchZeroAndFalse() returns (first: Outcome, second: Outcome)
    ensures var d := Decl([true, false], {}, false);
            var a, b := Call([Int(0), Int(3)], 4, 3, None, 0, false), Call([Bool(false), Int(3)], 4, 3, None, 0, false);
            first == second == Fresh(d, a) && second != Fresh(d, b)
  {
    ZeroIsNotFalse();
    var d := Decl([true, false], {}, false);
    var a, b := Call([Int(0), Int(3)], 4, 3, None, 0, false), Call([Bool(false), Int(3)], 4, 3, None, 0, false);
    ZeroCompiles(d, a);
    FreshOutcome(d, a);
    hide Fresh, InputsOf, KeyOfCall, Coherent, RaisesEarly, RaisesLate;
    first, second := LaunchTwice(d, a, b);
  }
}
