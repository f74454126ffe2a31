/** Iterator ops, the streams they denote and the states that the lowering keeps for them. */
module IteratorOps {
  import opened Values
  import opened Streams

  /** The seven iterator ops. An input is the position of an earlier op in the worklist. */
  datatype Op =
    | ConstantStream(rows: seq<seq<Value>>)
    | Filter(input: nat, predicateRef: Value -> bool)
    | Map(input: nat, mapFuncRef: Value -> Value)
    | Reduce(input: nat, reduceFuncRef: (Value, Value) -> Value)
    | TabularViewToStream(columns: seq<seq<Value>>)
    | ValueToStream(value: Value)
    | Zip(inputs: seq<nat>)

  function Inputs(op: Op): seq<nat> {
    match op
    case ConstantStream(_) => []
    case Filter(input, _) => [input]
    case Map(input, _) => [input]
    case Reduce(input, _) => [input]
    case TabularViewToStream(_) => []
    case ValueToStream(_) => []
    case Zip(inputs) => inputs
  }

  /** What the op verifiers and the order of the worklist guarantee for the op at `i`. */
  predicate ValidOp(op: Op, i: nat) {
    && (op.Filter? || op.Map? || op.Reduce? ==> op.input < i)
    && (op.Zip? ==> op.inputs != [] && forall k | 0 <= k < |op.inputs| :: op.inputs[k] < i)
    && (op.ValueToStream? ==> !op.value.State?)
    && (op.TabularViewToStream? ==>
          && op.columns != []
          && |op.columns[0]| <= MAX_I64
          && forall c | c in op.columns :: |op.columns[0]| <= |c|)
  }

  predicate Valid(ops: seq<Op>) {
    forall i | 0 <= i < |ops| :: ValidOp(ops[i], i)
  }

  /** The lowered view: its number of elements is the size of the first column. */
  function MakeView(columns: seq<seq<Value>>): Value
    requires columns != []
  {
    View(|columns[0]|, columns)
  }

  function ViewRow(columns: seq<seq<Value>>, k: nat): Value
    requires forall c | c in columns :: k < |c|
  {
    Tuple(seq(|columns|, j requires 0 <= j < |columns| => columns[j][k]))
  }

  function ViewRows(columns: seq<seq<Value>>): seq<Value>
    requires columns != [] && forall c | c in columns :: |columns[0]| <= |c|
  {
    seq(|columns[0]|, k requires 0 <= k < |columns[0]| => ViewRow(columns, k))
  }

  /** The end of a constant stream as the generated code sees it: a 32-bit constant. */
  function LastIndex(rows: seq<seq<Value>>): int {
    WrapI32(|rows|)
  }

  /** The rows that the generated code can reach. */
  function ConstantRows(rows: seq<seq<Value>>): (s: seq<Value>)
    ensures |s| == if LastIndex(rows) < 0 then 0 else LastIndex(rows)
  {
    var n := if LastIndex(rows) < 0 then 0 else LastIndex(rows);
    assert n <= |rows|;
    seq(n, k requires 0 <= k < n => Tuple(rows[k]))
  }

  /** All rows of a constant stream. */
  function AllRows(rows: seq<seq<Value>>): (s: seq<Value>)
    ensures |s| == |rows|
  {
    seq(|rows|, k requires 0 <= k < |rows| => Tuple(rows[k]))
  }

  /** The generated code can reach all rows exactly when their number fits an i32. */
  lemma ConstantStreamIsComplete(rows: seq<seq<Value>>)
    ensures ConstantRows(rows) == AllRows(rows) <==> |rows| <= MAX_I32
  {
    if |rows| > MAX_I32 {
      assert |ConstantRows(rows)| != |rows|;
    }
  }

  /** The stream that the op at `i` denotes. */
  function Denote(ops: seq<Op>, i: nat): seq<Value>
    requires Valid(ops) && i < |ops|
    decreases i, 0
  {
    match ops[i]
    case ConstantStream(rows) => AllRows(rows)
    case Filter(input, p) => Filtered(p, Denote(ops, input))
    case Map(input, f) => Mapped(f, Denote(ops, input))
    case Reduce(input, g) => Reduced(g, Denote(ops, input))
    case TabularViewToStream(columns) => ViewRows(columns)
    case ValueToStream(v) => [v]
    case Zip(inputs) =>
      Zipped(seq(|inputs|, k requires 0 <= k < |inputs| => Denote(ops, inputs[k])))
  }

  /** The stream that the generated code delivers for the op at `i`: as denoted, but with those
      rows of constant streams only that a 32-bit index reaches. */
  function Delivered(ops: seq<Op>, i: nat): seq<Value>
    requires Valid(ops) && i < |ops|
    decreases i, 0
  {
    match ops[i]
    case ConstantStream(rows) => ConstantRows(rows)
    case Filter(input, p) => Filtered(p, Delivered(ops, input))
    case Map(input, f) => Mapped(f, Delivered(ops, input))
    case Reduce(input, g) => Reduced(g, Delivered(ops, input))
    case TabularViewToStream(columns) => ViewRows(columns)
    case ValueToStream(v) => [v]
    case Zip(inputs) =>
      Zipped(seq(|inputs|, k requires 0 <= k < |inputs| => Delivered(ops, inputs[k])))
  }

  /** The streams that the inputs of the zip at `i` deliver. */
  function DeliveredByInputs(ops: seq<Op>, i: nat): (ss: seq<seq<Value>>)
    requires Valid(ops) && i < |ops| && ops[i].Zip?
    ensures |ss| == |ops[i].inputs| && ss != [] && Delivered(ops, i) == Zipped(ss)
  {
    var inputs := ops[i].inputs;
    seq(|inputs|, k requires 0 <= k < |inputs| => Delivered(ops, inputs[k]))
  }

  /** The op at `j` is the op at `i` or upstream of it. */
  ghost predicate Reaches(ops: seq<Op>, i: nat, j: nat)
    requires Valid(ops) && i < |ops|
    decreases i
  {
    i == j || exists k | 0 <= k < |Inputs(ops[i])| :: Reaches(ops, Inputs(ops[i])[k], j)
  }

  /** The rows of all constant streams upstream of the op at `i` can be counted in an i32. */
  ghost predicate Fits(ops: seq<Op>, i: nat)
    requires Valid(ops) && i < |ops|
  {
    forall j | 0 <= j < |ops| && Reaches(ops, i, j) && ops[j].ConstantStream? :: |ops[j].rows| <= MAX_I32
  }

  lemma InputFits(ops: seq<Op>, i: nat, k: nat)
    requires Valid(ops) && i < |ops| && k < |Inputs(ops[i])| && Fits(ops, i)
    ensures Fits(ops, Inputs(ops[i])[k])
  {
    var input := Inputs(ops[i])[k];
    forall j | 0 <= j < |ops| && Reaches(ops, input, j)
      ensures Reaches(ops, i, j)
    {
    }
  }

  /** Where all constant streams fit, the generated code delivers what the ops denote. */
  lemma {:induction false} FittingStreamsAreDelivered(ops: seq<Op>, i: nat)
    requires Valid(ops) && i < |ops| && Fits(ops, i)
    ensures Delivered(ops, i) == Denote(ops, i)
    decreases i
  {
    forall k | 0 <= k < |Inputs(ops[i])|
      ensures Delivered(ops, Inputs(ops[i])[k]) == Denote(ops, Inputs(ops[i])[k])
    {
      InputFits(ops, i, k);
      FittingStreamsAreDelivered(ops, Inputs(ops[i])[k]);
    }
    match ops[i]
    case ConstantStream(rows) =>
      assert Reaches(ops, i, i);
      ConstantStreamIsComplete(rows);
    case Filter(input, _) => assert Inputs(ops[i])[0] == input;
    case Map(input, _) => assert Inputs(ops[i])[0] == input;
    case Reduce(input, _) => assert Inputs(ops[i])[0] == input;
    case TabularViewToStream(_) =>
    case ValueToStream(_) =>
    case Zip(inputs) =>
      assert forall k | 0 <= k < |inputs| :: Inputs(ops[i])[k] == inputs[k];
      assert seq(|inputs|, k requires 0 <= k < |inputs| => Delivered(ops, inputs[k]))
          == seq(|inputs|, k requires 0 <= k < |inputs| => Denote(ops, inputs[k]));
  }

  /** A constant stream with 2^31 rows: the end is negative, and nothing is delivered. */
  lemma TooManyRows(rows: seq<seq<Value>>)
    requires rows == seq(0x8000_0000, _ => [])
    ensures var ops := [ConstantStream(rows)];
            Valid(ops) && LastIndex(rows) == -0x8000_0000 && Delivered(ops, 0) == [] && |Denote(ops, 0)| == 0x8000_0000
  {
    var ops := [ConstantStream(rows)];
    assert Delivered(ops, 0) == ConstantRows(rows);
  }

  /** A constant stream with 2^32 + 5 rows: the end has wrapped around to 5, and the head is right. */
  lemma WrappedRows(rows: seq<seq<Value>>)
    requires rows == seq(0x1_0000_0005, _ => [])
    ensures var ops := [ConstantStream(rows)];
            && Valid(ops) && LastIndex(rows) == 5 && |Delivered(ops, 0)| == 5 && |Denote(ops, 0)| == 0x1_0000_0005
            && Delivered(ops, 0)[0] == Denote(ops, 0)[0]
  {
    var ops := [ConstantStream(rows)];
    assert Delivered(ops, 0) == ConstantRows(rows);
  }

  lemma {:induction false} AllRejected(s: seq<Value>)
    ensures Filtered((v: Value) => false, s) == []
    decreases s
  {
    if s != [] {
      AllRejected(s[1..]);
    }
  }

  /** The denoted stream may be delivered although a constant stream does not fit, e.g., if none of
      its rows is used. */
  lemma RejectedRowsNeedNotFit(rows: seq<seq<Value>>)
    requires |rows| > MAX_I32
    ensures var ops := [ConstantStream(rows), Filter(0, (v: Value) => false)];
            Valid(ops) && !Fits(ops, 1) && Delivered(ops, 1) == Denote(ops, 1)
  {
    var ops := [ConstantStream(rows), Filter(0, (v: Value) => false)];
    assert Inputs(ops[1])[0] == 0 && Reaches(ops, 0, 0) && Reaches(ops, 1, 0);
    AllRejected(Delivered(ops, 0));
    AllRejected(Denote(ops, 0));
  }

  /** The nested state type of the op at `i`. */
  function StateTypeOf(ops: seq<Op>, i: nat): Type
    requires Valid(ops) && i < |ops|
    decreases i
  {
    match ops[i]
    case ConstantStream(_) => StateType([I32])
    case TabularViewToStream(_) => StateType([I64, ViewType])
    case ValueToStream(_) => StateType([I1, ElementType])
    case _ =>
      var inputs := Inputs(ops[i]);
      StateType(seq(|inputs|, k requires 0 <= k < |inputs| => StateTypeOf(ops, inputs[k])))
  }

  /** The op's own fields, and the states of its inputs. The index of a source is arbitrary. */
  predicate Typed(ops: seq<Op>, i: nat, st: Value)
    requires Valid(ops) && i < |ops|
    decreases i
  {
    && st.State?
    && match ops[i]
       case ConstantStream(_) =>
         |st.fields| == 1 && st.fields[0].Int? && InI32(st.fields[0].i)
       case TabularViewToStream(columns) =>
         && |st.fields| == 2 && st.fields[0].Int? && InI64(st.fields[0].i)
         && st.fields[1] == MakeView(columns)
       case ValueToStream(v) =>
         |st.fields| == 2 && st.fields[0].Bool? && st.fields[1] == v
       case _ =>
         && |st.fields| == |Inputs(ops[i])|
         && forall k | 0 <= k < |st.fields| :: Typed(ops, Inputs(ops[i])[k], st.fields[k])
  }

  /** A typed state in which no source index is negative: what `next` is called on. */
  predicate Ready(ops: seq<Op>, i: nat, st: Value)
    requires Valid(ops) && i < |ops|
    decreases i
  {
    && Typed(ops, i, st)
    && match ops[i]
       case ConstantStream(_) => st.fields[0].i >= 0
       case TabularViewToStream(_) => st.fields[0].i >= 0
       case ValueToStream(_) => true
       case _ => forall k | 0 <= k < |st.fields| :: Ready(ops, Inputs(ops[i])[k], st.fields[k])
  }

  /** `s` from position `k` on. */
  function From(s: seq<Value>, k: int): seq<Value>
    requires 0 <= k
  {
    if k < |s| then s[k..] else []
  }

  /** The elements that are still to come when the op at `i` is in state `st`. */
  function Remaining(ops: seq<Op>, i: nat, st: Value): seq<Value>
    requires Valid(ops) && i < |ops| && Ready(ops, i, st)
    decreases i
  {
    match ops[i]
    case ConstantStream(rows) => From(ConstantRows(rows), st.fields[0].i)
    case Filter(input, p) => Filtered(p, Remaining(ops, input, st.fields[0]))
    case Map(input, f) => Mapped(f, Remaining(ops, input, st.fields[0]))
    case Reduce(input, g) => Reduced(g, Remaining(ops, input, st.fields[0]))
    case TabularViewToStream(columns) => From(ViewRows(columns), st.fields[0].i)
    case ValueToStream(v) => if st.fields[0].b then [] else [v]
    case Zip(inputs) => Zipped(RemainingOfInputs(ops, i, st))
  }

  function RemainingOfInputs(ops: seq<Op>, i: nat, st: Value): (ss: seq<seq<Value>>)
    requires Valid(ops) && i < |ops| && Ready(ops, i, st) && ops[i].Zip?
    ensures |ss| == |ops[i].inputs|
    decreases i, 0
  {
    seq(|ops[i].inputs|, k requires 0 <= k < |ops[i].inputs| =>
      Remaining(ops, ops[i].inputs[k], st.fields[k]))
  }

  /** The number of use-def paths that lead from the op at `i` up to the op at `j`. */
  function Paths(ops: seq<Op>, i: nat, j: nat): nat
    requires Valid(ops) && i < |ops|
    decreases i, |Inputs(ops[i])| + 1
  {
    (if i == j then 1 else 0) + PathsVia(ops, i, j, |Inputs(ops[i])|)
  }

  /** The paths from `i` to `j` that start with one of the first `n` inputs. */
  function PathsVia(ops: seq<Op>, i: nat, j: nat, n: nat): nat
    requires Valid(ops) && i < |ops| && n <= |Inputs(ops[i])|
    decreases i, n
  {
    if n == 0 then 0
    else PathsVia(ops, i, j, n - 1) + Paths(ops, Inputs(ops[i])[n - 1], j)
  }

  /** No source is undefined, and the user functions keep defined values defined. */
  ghost predicate DefinedSources(ops: seq<Op>) {
    forall i | 0 <= i < |ops| :: DefinedSource(ops[i])
  }

  ghost predicate DefinedSource(op: Op) {
    match op
    case ConstantStream(rows) => forall r | r in rows :: AllDefined(r)
    case Filter(_, _) => true
    case Map(_, f) => forall v | Defined(v) :: Defined(f(v))
    case Reduce(_, g) => forall v, w | Defined(v) && Defined(w) :: Defined(g(v, w))
    case TabularViewToStream(columns) => forall c | c in columns :: AllDefined(c)
    case ValueToStream(v) => Defined(v)
    case Zip(_) => true
  }

  /** The states have the types that the analysis computes. */
  lemma {:induction false} TypedHasStateType(ops: seq<Op>, i: nat, st: Value)
    requires Valid(ops) && i < |ops| && Typed(ops, i, st)
    ensures HasType(st, StateTypeOf(ops, i))
    decreases i
  {
    var t := StateTypeOf(ops, i);
    if Inputs(ops[i]) != [] {
      forall k | 0 <= k < |st.fields|
        ensures HasType(st.fields[k], t.fieldTypes[k])
      {
        TypedHasStateType(ops, Inputs(ops[i])[k], st.fields[k]);
      }
    }
  }

  lemma ConstantRowsDefined(rows: seq<seq<Value>>)
    requires forall r | r in rows :: AllDefined(r)
    ensures AllDefined(ConstantRows(rows))
  {
    var s := ConstantRows(rows);
    forall k | 0 <= k < |s|
      ensures Defined(s[k])
    {
      assert s[k] == Tuple(rows[k]) && rows[k] in rows;
    }
  }

  lemma ViewRowsDefined(columns: seq<seq<Value>>)
    requires columns != [] && forall c | c in columns :: |columns[0]| <= |c| && AllDefined(c)
    ensures AllDefined(ViewRows(columns))
  {
    var s := ViewRows(columns);
    forall k | 0 <= k < |s|
      ensures Defined(s[k])
    {
      forall j | 0 <= j < |columns|
        ensures Defined(columns[j][k])
      {
        assert columns[j] in columns;
      }
    }
  }

  lemma SourceDefined(ops: seq<Op>, i: nat)
    requires DefinedSources(ops) && i < |ops|
    ensures DefinedSource(ops[i])
  {
  }

  /** No undefined value is ever still to come. */
  lemma {:induction false} RemainingDefined(ops: seq<Op>, i: nat, st: Value)
    requires Valid(ops) && i < |ops| && Ready(ops, i, st) && DefinedSources(ops)
    ensures AllDefined(Remaining(ops, i, st))
    decreases i
  {
    hide DefinedSources, ConstantRows, ViewRows, Filtered, Mapped, FoldLeft, Zipped;
    SourceDefined(ops, i);
    match ops[i]
    case ConstantStream(rows) =>
      ConstantRowsDefined(rows);
    case Filter(input, p) =>
      RemainingDefined(ops, input, st.fields[0]);
      FilteredDefined(p, Remaining(ops, input, st.fields[0]));
    case Map(input, f) =>
      RemainingDefined(ops, input, st.fields[0]);
      MappedDefined(f, Remaining(ops, input, st.fields[0]));
    case Reduce(input, g) =>
      var s := Remaining(ops, input, st.fields[0]);
      RemainingDefined(ops, input, st.fields[0]);
      if s != [] {
        FoldLeftDefined(g, s[0], s[1..]);
      }
    case TabularViewToStream(columns) =>
      ViewRowsDefined(columns);
    case ValueToStream(_) =>
    case Zip(inputs) =>
      var ss := RemainingOfInputs(ops, i, st);
      forall k | 0 <= k < |inputs|
        ensures AllDefined(ss[k])
      {
        RemainingDefined(ops, inputs[k], st.fields[k]);
      }
      ZippedDefined(ss);
  }

  lemma InputsTyped(ops: seq<Op>, i: nat, st: Value)
    requires Valid(ops) && i < |ops| && Inputs(ops[i]) != [] && Typed(ops, i, st)
    ensures st.State? && |st.fields| == |Inputs(ops[i])|
    ensures forall k | 0 <= k < |st.fields| :: Typed(ops, Inputs(ops[i])[k], st.fields[k])
  {
  }

  /** A zip over ready inputs is ready, and zips what remains of them. */
  lemma ZipReady(ops: seq<Op>, i: nat, st: Value)
    requires Valid(ops) && i < |ops| && ops[i].Zip?
    requires st.State? && |st.fields| == |ops[i].inputs|
    requires forall k | 0 <= k < |st.fields| :: Ready(ops, ops[i].inputs[k], st.fields[k])
    ensures Ready(ops, i, st)
    ensures Remaining(ops, i, st) == Zipped(RemainingOfInputs(ops, i, st))
  {
  }

  lemma ZipInputsReady(ops: seq<Op>, i: nat, st: Value)
    requires Valid(ops) && i < |ops| && ops[i].Zip? && Ready(ops, i, st)
    ensures st.State? && |st.fields| == |ops[i].inputs|
    ensures forall k | 0 <= k < |st.fields| :: Ready(ops, ops[i].inputs[k], st.fields[k])
    ensures Remaining(ops, i, st) == Zipped(RemainingOfInputs(ops, i, st))
  {
  }

  /** A ready state is a typed one; so `open` may be called again at any time. */
  lemma ReadyIsTyped(ops: seq<Op>, i: nat, st: Value)
    requires Valid(ops) && i < |ops| && Ready(ops, i, st)
    ensures Typed(ops, i, st)
  {
  }
}
