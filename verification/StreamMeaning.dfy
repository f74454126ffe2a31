/** What the streams of the ops are, element by element; without the functions that compute them. */
module StreamMeaning {
  import opened Sequences
  import opened Values
  import opened Streams
  import opened IteratorOps

  // ----- Streams, element by element -----

  ghost predicate IsMapped(f: Value -> Value, s: seq<Value>, r: seq<Value>) {
    |r| == |s| && forall k | 0 <= k < |s| :: r[k] == f(s[k])
  }

  /** The accumulator after each element; it is the first argument of the reduce function. */
  ghost predicate Accumulates(g: (Value, Value) -> Value, s: seq<Value>, accumulators: seq<Value>) {
    && |accumulators| == |s| > 0 && accumulators[0] == s[0]
    && forall k | 1 <= k < |s| :: accumulators[k] == g(accumulators[k - 1], s[k])
  }

  ghost predicate IsReduced(g: (Value, Value) -> Value, s: seq<Value>, r: seq<Value>) {
    if s == [] then r == []
    else |r| == 1 && exists accumulators :: Accumulates(g, s, accumulators) && r[0] == accumulators[|s| - 1]
  }

  /** Tuple `k` has element `k` of each of the given sequences, in their order. */
  ghost predicate AreRows(ss: seq<seq<Value>>, r: seq<Value>) {
    forall k | 0 <= k < |r| ::
      && r[k].Tuple? && |r[k].elements| == |ss|
      && forall j | 0 <= j < |ss| :: k < |ss[j]| && r[k].elements[j] == ss[j][k]
  }

  ghost predicate IsZipped(ss: seq<seq<Value>>, r: seq<Value>) {
    && AreRows(ss, r)
    && (forall j | 0 <= j < |ss| :: |r| <= |ss[j]|) && exists j | 0 <= j < |ss| :: |r| == |ss[j]|
  }

  /** `r` is a stream that the op may give for the streams of its inputs. A constant stream gives a
      prefix of its rows. */
  ghost predicate IsStreamOf(op: Op, inputs: seq<seq<Value>>, r: seq<Value>)
    requires |inputs| == |Inputs(op)|
  {
    match op
    case ConstantStream(rows) => |r| <= |rows| && forall k | 0 <= k < |r| :: r[k] == Tuple(rows[k])
    case Filter(_, p) => IsSelection(p, inputs[0], r)
    case Map(_, f) => IsMapped(f, inputs[0], r)
    case Reduce(_, g) => IsReduced(g, inputs[0], r)
    case TabularViewToStream(columns) => columns != [] && |r| == |columns[0]| && AreRows(columns, r)
    case ValueToStream(v) => r == [v]
    case Zip(_) => IsZipped(inputs, r)
  }

  // ----- The functions compute these streams -----

  lemma {:induction false} FilteredIsSelection(p: Value -> bool, s: seq<Value>)
    ensures IsSelection(p, s, Filtered(p, s))
    decreases s
  {
    if s == [] {
      NothingSelected(p);
    } else {
      FilteredIsSelection(p, s[1..]);
      SelectionCons(p, s, Filtered(p, s[1..]));
    }
  }

  lemma {:induction false} MappedIsMapped(f: Value -> Value, s: seq<Value>)
    ensures IsMapped(f, s, Mapped(f, s))
    decreases s
  {
    if s != [] {
      MappedIsMapped(f, s[1..]);
    }
  }

  /** The last element is folded in last, and is the second argument. */
  lemma {:induction false} FoldLeftSnoc(g: (Value, Value) -> Value, acc: Value, s: seq<Value>, x: Value)
    ensures FoldLeft(g, acc, s + [x]) == g(FoldLeft(g, acc, s), x)
    decreases s
  {
    var all := s + [x];
    if s == [] {
      assert all == [x] && all[1..] == [];
    } else {
      assert all[0] == s[0] && all[1..] == s[1..] + [x];
      FoldLeftSnoc(g, g(acc, s[0]), s[1..], x);
    }
  }

  lemma {:induction false} FoldLeftAccumulates(g: (Value, Value) -> Value, s: seq<Value>)
    returns (accumulators: seq<Value>)
    requires s != []
    ensures Accumulates(g, s, accumulators) && accumulators[|s| - 1] == FoldLeft(g, s[0], s[1..])
    decreases |s|
  {
    if |s| == 1 {
      accumulators := s;
    } else {
      var n := |s| - 1;
      var init := s[..n];
      var before := FoldLeftAccumulates(g, init);
      FoldLeftSnoc(g, s[0], init[1..], s[n]);
      assert init[1..] + [s[n]] == s[1..];
      accumulators := before + [g(before[n - 1], s[n])];
    }
  }

  lemma {:induction false} ReducedIsReduced(g: (Value, Value) -> Value, s: seq<Value>)
    ensures IsReduced(g, s, Reduced(g, s))
  {
    if s != [] {
      var accumulators := FoldLeftAccumulates(g, s);
    }
  }

  lemma ZippedIsZipped(ss: seq<seq<Value>>)
    requires ss != []
    ensures IsZipped(ss, Zipped(ss))
  {
  }

  lemma ViewRowsAreRows(columns: seq<seq<Value>>)
    requires columns != [] && forall c | c in columns :: |columns[0]| <= |c|
    ensures |ViewRows(columns)| == |columns[0]| && AreRows(columns, ViewRows(columns))
  {
    forall j | 0 <= j < |columns|
      ensures |columns[0]| <= |columns[j]|
    {
      assert columns[j] in columns;
    }
  }

  /** The delivered streams of the inputs of an op. */
  function InputsDelivered(ops: seq<Op>, i: nat): (r: seq<seq<Value>>)
    requires Valid(ops) && i < |ops|
    ensures |r| == |Inputs(ops[i])| && forall k | 0 <= k < |r| :: r[k] == Delivered(ops, Inputs(ops[i])[k])
  {
    seq(|Inputs(ops[i])|, k requires 0 <= k < |Inputs(ops[i])| => Delivered(ops, Inputs(ops[i])[k]))
  }

  /** The denoted streams of the inputs of an op. */
  function InputsDenoted(ops: seq<Op>, i: nat): (r: seq<seq<Value>>)
    requires Valid(ops) && i < |ops|
    ensures |r| == |Inputs(ops[i])| && forall k | 0 <= k < |r| :: r[k] == Denote(ops, Inputs(ops[i])[k])
  {
    seq(|Inputs(ops[i])|, k requires 0 <= k < |Inputs(ops[i])| => Denote(ops, Inputs(ops[i])[k]))
  }

  /** What the generated code delivers is right for what it delivers for the inputs. */
  lemma {:induction false} DeliveredStreams(ops: seq<Op>, i: nat)
    requires Valid(ops) && i < |ops|
    ensures IsStreamOf(ops[i], InputsDelivered(ops, i), Delivered(ops, i))
  {
    hide Filtered, Mapped, Reduced, Zipped, IsSelection, IsMapped, IsReduced, IsZipped, AreRows;
    var inputs := InputsDelivered(ops, i);
    match ops[i]
    case ConstantStream(rows) =>
    case Filter(_, p) => FilteredIsSelection(p, inputs[0]);
    case Map(_, f) => MappedIsMapped(f, inputs[0]);
    case Reduce(_, g) => ReducedIsReduced(g, inputs[0]);
    case TabularViewToStream(columns) => ViewRowsAreRows(columns);
    case ValueToStream(_) =>
    case Zip(ins) =>
      assert inputs == seq(|ins|, k requires 0 <= k < |ins| => Delivered(ops, ins[k]));
      ZippedIsZipped(inputs);
  }

  /** The denoted streams, likewise; a constant stream denotes all its rows. */
  lemma {:induction false} DenotedStreams(ops: seq<Op>, i: nat)
    requires Valid(ops) && i < |ops|
    ensures IsStreamOf(ops[i], InputsDenoted(ops, i), Denote(ops, i))
    ensures ops[i].ConstantStream? ==> |Denote(ops, i)| == |ops[i].rows|
  {
    hide Filtered, Mapped, Reduced, Zipped, IsSelection, IsMapped, IsReduced, IsZipped, AreRows;
    var inputs := InputsDenoted(ops, i);
    match ops[i]
    case ConstantStream(rows) =>
    case Filter(_, p) => FilteredIsSelection(p, inputs[0]);
    case Map(_, f) => MappedIsMapped(f, inputs[0]);
    case Reduce(_, g) => ReducedIsReduced(g, inputs[0]);
    case TabularViewToStream(columns) => ViewRowsAreRows(columns);
    case ValueToStream(_) =>
    case Zip(ins) =>
      assert inputs == seq(|ins|, k requires 0 <= k < |ins| => Denote(ops, ins[k]));
      ZippedIsZipped(inputs);
  }

  // ----- State types -----

  /** The state types of sources, and which values have them. */
  lemma SourceStateTypes(ops: seq<Op>, i: nat, st: Value)
    requires Valid(ops) && i < |ops| && Inputs(ops[i]) == []
    ensures match ops[i]
            case ConstantStream(_) => StateTypeOf(ops, i) == StateType([I32])
            case TabularViewToStream(_) => StateTypeOf(ops, i) == StateType([I64, ViewType])
            case ValueToStream(_) => StateTypeOf(ops, i) == StateType([I1, ElementType])
            case _ => false
    ensures ops[i].ConstantStream? ==>
              (Typed(ops, i, st) <==> st.State? && |st.fields| == 1 && st.fields[0].Int?
                                      && -0x8000_0000 <= st.fields[0].i <= 0x7fff_ffff)
    ensures HasType(st, StateTypeOf(ops, i))
            && (ops[i].TabularViewToStream? ==> st.fields[1] == View(|ops[i].columns[0]|, ops[i].columns))
            && (ops[i].ValueToStream? ==> st.fields[1] == ops[i].value)
            <==> Typed(ops, i, st)
  {
    if Typed(ops, i, st) {
      TypedHasStateType(ops, i, st);
    }
  }
}
