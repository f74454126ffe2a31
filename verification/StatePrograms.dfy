/** Programs of state ops under three representations of states: nested values, flat lists of
    leaves (the state decomposition), and LLVM structs (the conversion of states to LLVM). */
module StatePrograms {
  import opened Sequences
  import opened Values
  import opened StateLayout

  /** An op refers to earlier results by position. `Compute` stands for any op on leaf values. */
  datatype StateOp =
    | CreateState(fieldTypes: seq<Type>, values: seq<nat>)
    | ExtractValue(state: nat, index: nat)
    | InsertValue(state: nat, index: nat, value: nat)
    | Compute(f: seq<Value> -> Value, args: seq<nat>, resultType: Type)

  ghost predicate WellTypedOp(op: StateOp, types: seq<Type>) {
    match op
    case CreateState(fieldTypes, values) =>
      && |values| == |fieldTypes|
      && forall k | 0 <= k < |values| :: values[k] < |types| && types[values[k]] == fieldTypes[k]
    case ExtractValue(state, index) =>
      state < |types| && types[state].StateType? && index < |types[state].fieldTypes|
    case InsertValue(state, index, value) =>
      && state < |types| && types[state].StateType? && index < |types[state].fieldTypes|
      && value < |types| && types[value] == types[state].fieldTypes[index]
    case Compute(f, args, resultType) =>
      && (forall k | 0 <= k < |args| :: args[k] < |types| && !types[args[k]].StateType?)
      && !resultType.StateType?
      && forall xs :: HasType(f(xs), resultType)
  }

  ghost function ResultType(op: StateOp, types: seq<Type>): Type
    requires WellTypedOp(op, types)
  {
    match op
    case CreateState(fieldTypes, _) => StateType(fieldTypes)
    case ExtractValue(state, index) => types[state].fieldTypes[index]
    case InsertValue(state, _, _) => types[state]
    case Compute(_, _, resultType) => resultType
  }

  ghost predicate WellTyped(ops: seq<StateOp>, types: seq<Type>)
    decreases ops
  {
    ops != [] ==>
      WellTypedOp(ops[0], types) && WellTyped(ops[1..], types + [ResultType(ops[0], types)])
  }

  ghost predicate TypedEnv(env: seq<Value>, types: seq<Type>) {
    |env| == |types| && forall k | 0 <= k < |env| :: HasType(env[k], types[k])
  }

  // ----- Nested states -----

  ghost function Eval(op: StateOp, types: seq<Type>, env: seq<Value>): (v: Value)
    requires WellTypedOp(op, types) && TypedEnv(env, types)
    ensures HasType(v, ResultType(op, types))
  {
    match op
    case CreateState(_, values) =>
      State(seq(|values|, k requires 0 <= k < |values| => env[values[k]]))
    case ExtractValue(state, index) => env[state].fields[index]
    case InsertValue(state, index, value) => State(env[state].fields[index := env[value]])
    case Compute(f, args, _) => f(seq(|args|, k requires 0 <= k < |args| => env[args[k]]))
  }

  /** All results, in order, after the given ones. */
  ghost function Run(ops: seq<StateOp>, types: seq<Type>, env: seq<Value>): (all: seq<Value>)
    requires WellTyped(ops, types) && TypedEnv(env, types)
    ensures |all| == |env| + |ops|
    decreases ops
  {
    if ops == [] then env
    else Run(ops[1..], types + [ResultType(ops[0], types)], env + [Eval(ops[0], types, env)])
  }

  // ----- Flat lists of leaves -----

  function FlatExtract(ts: seq<Type>, flat: seq<Value>, index: nat): (r: seq<Value>)
    requires |flat| == WidthAll(ts) && index < |ts|
    ensures |r| == Width(ts[index])
  {
    OffsetStep(ts, index);
    flat[Offset(ts, index)..Offset(ts, index) + Width(ts[index])]
  }

  function FlatInsert(ts: seq<Type>, flat: seq<Value>, index: nat, value: seq<Value>): (r: seq<Value>)
    requires |flat| == WidthAll(ts) && index < |ts|
    ensures |r| == |flat| - Width(ts[index]) + |value|
  {
    OffsetStep(ts, index);
    flat[..Offset(ts, index)] + value + flat[Offset(ts, index) + Width(ts[index])..]
  }

  function Concat(parts: seq<seq<Value>>): seq<Value> {
    if parts == [] then [] else parts[0] + Concat(parts[1..])
  }

  /** The decomposition of an insertion, field by field: the converted value replaces the
      leaves of the indexed field, all other fields are copied. */
  method DecomposeInsertValue(ts: seq<Type>, convertedState: seq<Value>, index: nat,
                              convertedValue: seq<Value>)
    returns (updatedState: seq<Value>)
    requires |convertedState| == WidthAll(ts) && index < |ts|
    ensures updatedState == FlatInsert(ts, convertedState, index, convertedValue)
  {
    hide Offset, WidthAll, Width;
    updatedState := [];
    OffsetStep(ts, index);
    OffsetEnds(ts);
    for i := 0 to |ts|
      invariant Offset(ts, i) <= WidthAll(ts)
      invariant i <= index ==> Offset(ts, i) <= Offset(ts, index)
      invariant i > index ==> Offset(ts, index + 1) <= Offset(ts, i)
      invariant i <= index ==> updatedState == convertedState[..Offset(ts, i)]
      invariant i > index ==>
                  updatedState == convertedState[..Offset(ts, index)] + convertedValue
                                + convertedState[Offset(ts, index + 1)..Offset(ts, i)]
    {
      OffsetStep(ts, i);
      var field := FlatExtract(ts, convertedState, i);
      if index == i {
        updatedState := updatedState + convertedValue;
      } else {
        OffsetMonotone(ts, i + 1, index);
        if i < index {
          SliceExtended(convertedState, 0, Offset(ts, i), Offset(ts, i + 1));
        } else {
          ghost var mid := convertedState[Offset(ts, index + 1)..Offset(ts, i)];
          SliceExtended(convertedState, Offset(ts, index + 1), Offset(ts, i), Offset(ts, i + 1));
          ConcatAssociates(convertedState[..Offset(ts, index)] + convertedValue, mid, field);
        }
        updatedState := updatedState + field;
      }
    }
  }

  lemma OffsetEnds(ts: seq<Type>)
    ensures Offset(ts, 0) == 0 && Offset(ts, |ts|) == WidthAll(ts)
  {
    assert ts[..|ts|] == ts;
  }

  lemma SliceExtended(s: seq<Value>, a: nat, b: nat, c: nat)
    requires a <= b <= c <= |s|
    ensures s[a..b] + s[b..c] == s[a..c]
  {
  }

  lemma {:induction false} OffsetMonotone(ts: seq<Type>, a: nat, b: nat)
    requires a <= |ts| && b <= |ts|
    ensures a <= b ==> Offset(ts, a) <= Offset(ts, b)
    decreases b - a
  {
    if a < b {
      OffsetStep(ts, a);
      OffsetMonotone(ts, a + 1, b);
    }
  }

  /** Each value has been converted to as many leaves as its type has. */
  predicate FlatEnv(flats: seq<seq<Value>>, types: seq<Type>) {
    |flats| == |types| && forall k | 0 <= k < |flats| :: |flats[k]| == Width(types[k])
  }

  lemma {:induction false} ConcatWidth(parts: seq<seq<Value>>, ts: seq<Type>)
    requires FlatEnv(parts, ts)
    ensures |Concat(parts)| == WidthAll(ts)
    decreases |parts|
  {
    if parts != [] {
      ConcatWidth(parts[1..], ts[1..]);
    }
  }

  /** One op on flat lists. */
  ghost function FlatEval(op: StateOp, types: seq<Type>, flats: seq<seq<Value>>): (r: seq<Value>)
    requires WellTypedOp(op, types) && FlatEnv(flats, types)
    ensures |r| == Width(ResultType(op, types))
  {
    match op
    case CreateState(ts, values) =>
      var parts := seq(|values|, k requires 0 <= k < |values| => flats[values[k]]);
      ConcatWidth(parts, ts);
      Concat(parts)
    case ExtractValue(s, index) =>
      assert |flats[s]| == Width(types[s]);
      FlatExtract(types[s].fieldTypes, flats[s], index)
    case InsertValue(s, index, v) =>
      assert |flats[s]| == Width(types[s]) && |flats[v]| == Width(types[v]);
      FlatInsert(types[s].fieldTypes, flats[s], index, flats[v])
    case Compute(f, args, _) =>
      assert forall k | 0 <= k < |args| :: |flats[args[k]]| == Width(types[args[k]]) == 1;
      [f(seq(|args|, k requires 0 <= k < |args| => flats[args[k]][0]))]
  }

  ghost function FlatRun(ops: seq<StateOp>, types: seq<Type>, flats: seq<seq<Value>>): (all: seq<seq<Value>>)
    requires WellTyped(ops, types) && FlatEnv(flats, types)
    ensures |all| == |flats| + |ops|
    decreases ops
  {
    if ops == [] then flats
    else
      FlatRun(ops[1..], types + [ResultType(ops[0], types)], flats + [FlatEval(ops[0], types, flats)])
  }

  ghost predicate FlatRepresents(flats: seq<seq<Value>>, env: seq<Value>, types: seq<Type>) {
    && TypedEnv(env, types) && |flats| == |env|
    && forall k | 0 <= k < |env| :: flats[k] == Leaves(env[k])
  }

  lemma {:induction false} FlatWidths(flats: seq<seq<Value>>, env: seq<Value>, types: seq<Type>)
    requires FlatRepresents(flats, env, types)
    ensures FlatEnv(flats, types)
  {
    forall k | 0 <= k < |flats|
      ensures |flats[k]| == Width(types[k])
    {
      TypedIsShaped(env[k], types[k]);
      LeavesWidth(env[k], types[k]);
    }
  }

  lemma {:induction false} ConcatLeaves(vs: seq<Value>, parts: seq<seq<Value>>)
    requires |parts| == |vs| && forall k | 0 <= k < |vs| :: parts[k] == Leaves(vs[k])
    ensures Concat(parts) == LeavesAll(vs)
    decreases |vs|
  {
    if vs != [] {
      ConcatLeaves(vs[1..], parts[1..]);
    }
  }

  lemma {:induction false} TypedFieldsShaped(v: Value, ts: seq<Type>)
    requires HasType(v, StateType(ts))
    ensures ShapedAll(v.fields, ts)
  {
    forall k | 0 <= k < |ts|
      ensures Shaped(v.fields[k], ts[k])
    {
      TypedIsShaped(v.fields[k], ts[k]);
    }
  }

  /** One op on flat lists computes the leaves of what it computes on nested states. */
  lemma {:induction false} FlatEvalSimulates(op: StateOp, types: seq<Type>, env: seq<Value>,
                                             flats: seq<seq<Value>>)
    requires WellTypedOp(op, types) && FlatRepresents(flats, env, types)
    ensures FlatEnv(flats, types)
    ensures FlatEval(op, types, flats) == Leaves(Eval(op, types, env))
  {
    FlatWidths(flats, env, types);
    match op
    case CreateState(_, values) =>
      ConcatLeaves(seq(|values|, k requires 0 <= k < |values| => env[values[k]]),
                   seq(|values|, k requires 0 <= k < |values| => flats[values[k]]));
    case ExtractValue(s, index) =>
      TypedFieldsShaped(env[s], types[s].fieldTypes);
      LeavesOfField(types[s].fieldTypes, env[s].fields, index);
    case InsertValue(s, index, v) =>
      TypedFieldsShaped(env[s], types[s].fieldTypes);
      TypedIsShaped(env[v], types[v]);
      LeavesOfUpdate(types[s].fieldTypes, env[s].fields, index, env[v]);
    case Compute(f, args, t) =>
      forall k | 0 <= k < |args|
        ensures flats[args[k]][0] == env[args[k]]
      {
        TypedIsShaped(env[args[k]], types[args[k]]);
      }
      assert seq(|args|, k requires 0 <= k < |args| => flats[args[k]][0])
          == seq(|args|, k requires 0 <= k < |args| => env[args[k]]);
      TypedIsShaped(Eval(op, types, env), t);
  }

  // ----- LLVM structs -----

  datatype LlvmValue =
    | LlvmUndef
    | Leaf(value: Value)
    | Struct(fields: seq<LlvmValue>)

  function ToStruct(v: Value): LlvmValue {
    if v.State? then Struct(seq(|v.fields|, k requires 0 <= k < |v.fields| => ToStruct(v.fields[k])))
    else Leaf(v)
  }

  /** `llvm.mlir.undef` of the converted type. */
  function UndefOf(t: Type): LlvmValue {
    if t.StateType? then
      Struct(seq(|t.fieldTypes|, k requires 0 <= k < |t.fieldTypes| => UndefOf(t.fieldTypes[k])))
    else LlvmUndef
  }

  /** The lowering of the creation of a state: insertions into an undefined struct, one by one.
      No undefined field is left. */
  method LowerCreateState(fieldTypes: seq<Type>, values: seq<LlvmValue>) returns (state: LlvmValue)
    requires |values| == |fieldTypes|
    ensures state == Struct(values)
  {
    state := UndefOf(StateType(fieldTypes));
    for index := 0 to |values|
      invariant state.Struct? && |state.fields| == |values|
      invariant state.fields[..index] == values[..index]
    {
      state := Struct(state.fields[index := values[index]]);
    }
    assert state.fields[..|values|] == state.fields;
  }

  /** `lv` is a fully defined value of the converted type. */
  predicate StructShaped(lv: LlvmValue, t: Type)
    decreases t
  {
    if t.StateType? then
      && lv.Struct? && |lv.fields| == |t.fieldTypes|
      && forall k | 0 <= k < |lv.fields| :: StructShaped(lv.fields[k], t.fieldTypes[k])
    else lv.Leaf?
  }

  predicate StructEnv(structs: seq<LlvmValue>, types: seq<Type>) {
    |structs| == |types| && forall k | 0 <= k < |structs| :: StructShaped(structs[k], types[k])
  }

  /** One op on structs. */
  ghost function StructEval(op: StateOp, types: seq<Type>, structs: seq<LlvmValue>): (r: LlvmValue)
    requires WellTypedOp(op, types) && StructEnv(structs, types)
    ensures StructShaped(r, ResultType(op, types))
  {
    match op
    case CreateState(_, values) =>
      Struct(seq(|values|, k requires 0 <= k < |values| => structs[values[k]]))
    case ExtractValue(s, index) =>
      assert StructShaped(structs[s], types[s]);
      structs[s].fields[index]
    case InsertValue(s, index, v) =>
      assert StructShaped(structs[s], types[s]) && StructShaped(structs[v], types[v]);
      Struct(structs[s].fields[index := structs[v]])
    case Compute(f, args, _) =>
      assert forall k | 0 <= k < |args| :: StructShaped(structs[args[k]], types[args[k]]);
      Leaf(f(seq(|args|, k requires 0 <= k < |args| => structs[args[k]].value)))
  }

  ghost function StructRun(ops: seq<StateOp>, types: seq<Type>, structs: seq<LlvmValue>): (all: seq<LlvmValue>)
    requires WellTyped(ops, types) && StructEnv(structs, types)
    ensures |all| == |structs| + |ops|
    decreases ops
  {
    if ops == [] then structs
    else
      StructRun(ops[1..], types + [ResultType(ops[0], types)],
                structs + [StructEval(ops[0], types, structs)])
  }

  ghost predicate StructRepresents(structs: seq<LlvmValue>, env: seq<Value>, types: seq<Type>) {
    && TypedEnv(env, types) && |structs| == |env|
    && forall k | 0 <= k < |env| :: structs[k] == ToStruct(env[k])
  }

  lemma {:induction false} ToStructShaped(v: Value, t: Type)
    requires HasType(v, t)
    ensures StructShaped(ToStruct(v), t)
    decreases t
  {
    if t.StateType? {
      forall k | 0 <= k < |v.fields|
        ensures StructShaped(ToStruct(v.fields[k]), t.fieldTypes[k])
      {
        ToStructShaped(v.fields[k], t.fieldTypes[k]);
      }
    } else {
      TypedIsShaped(v, t);
    }
  }

  lemma {:induction false} StructShapes(structs: seq<LlvmValue>, env: seq<Value>, types: seq<Type>)
    requires StructRepresents(structs, env, types)
    ensures StructEnv(structs, types)
  {
    forall k | 0 <= k < |structs|
      ensures StructShaped(structs[k], types[k])
    {
      ToStructShaped(env[k], types[k]);
    }
  }

  /** One op on structs computes the struct of what it computes on nested states. */
  lemma {:induction false} StructEvalSimulates(op: StateOp, types: seq<Type>, env: seq<Value>,
                                               structs: seq<LlvmValue>)
    requires WellTypedOp(op, types) && StructRepresents(structs, env, types)
    ensures StructEnv(structs, types)
    ensures StructEval(op, types, structs) == ToStruct(Eval(op, types, env))
  {
    StructShapes(structs, env, types);
    match op
    case CreateState(_, values) =>
      assert StructEval(op, types, structs).fields == ToStruct(Eval(op, types, env)).fields;
    case ExtractValue(s, index) =>
    case InsertValue(s, index, v) =>
      assert StructEval(op, types, structs).fields == ToStruct(Eval(op, types, env)).fields;
    case Compute(f, args, t) =>
      forall k | 0 <= k < |args|
        ensures structs[args[k]] == Leaf(env[args[k]])
      {
        TypedIsShaped(env[args[k]], types[args[k]]);
      }
      assert seq(|args|, k requires 0 <= k < |args| => structs[args[k]].value)
          == seq(|args|, k requires 0 <= k < |args| => env[args[k]]);
      TypedIsShaped(Eval(op, types, env), t);
  }

  // ----- Whole programs -----

  /** A program computes the same on nested states, flat lists and structs: every result is
      represented faithfully, at every position. */
  lemma {:induction false} RunsAgree(ops: seq<StateOp>, types: seq<Type>, env: seq<Value>,
                                     flats: seq<seq<Value>>, structs: seq<LlvmValue>)
    requires WellTyped(ops, types)
    requires FlatRepresents(flats, env, types) && StructRepresents(structs, env, types)
    ensures FlatEnv(flats, types) && StructEnv(structs, types)
    ensures forall k | 0 <= k < |env| + |ops| ::
              FlatRun(ops, types, flats)[k] == Leaves(Run(ops, types, env)[k])
    ensures forall k | 0 <= k < |env| + |ops| ::
              StructRun(ops, types, structs)[k] == ToStruct(Run(ops, types, env)[k])
    decreases ops
  {
    FlatWidths(flats, env, types);
    StructShapes(structs, env, types);
    if ops != [] {
      FlatEvalSimulates(ops[0], types, env, flats);
      StructEvalSimulates(ops[0], types, env, structs);
      RunsAgree(ops[1..], types + [ResultType(ops[0], types)], env + [Eval(ops[0], types, env)],
                flats + [FlatEval(ops[0], types, flats)],
                structs + [StructEval(ops[0], types, structs)]);
    }
  }

  /** Results that are no states are the same in all three runs. */
  lemma {:induction false} LeafResultsAgree(ops: seq<StateOp>, types: seq<Type>, env: seq<Value>,
                                            flats: seq<seq<Value>>, structs: seq<LlvmValue>, k: nat)
    requires WellTyped(ops, types)
    requires FlatRepresents(flats, env, types) && StructRepresents(structs, env, types)
    requires k < |env| + |ops| && !Run(ops, types, env)[k].State?
    ensures FlatEnv(flats, types) && StructEnv(structs, types)
    ensures FlatRun(ops, types, flats)[k] == [Run(ops, types, env)[k]]
    ensures StructRun(ops, types, structs)[k] == Leaf(Run(ops, types, env)[k])
  {
    RunsAgree(ops, types, env, flats, structs);
  }
}
