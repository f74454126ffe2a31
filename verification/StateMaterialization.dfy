/** The materializations of the state decomposition: reading all leaves of a nested state, and
    creating a nested state from its leaves. */
module StateMaterialization {
  import opened Values
  import opened StateLayout

  /** Extracts the leaf values of a state field by field, descending into nested states. */
  method BuildExtractValueOps(t: Type, input: Value) returns (extractedValues: seq<Value>)
    requires t.StateType? && Shaped(input, t)
    ensures extractedValues == Leaves(input)
    decreases t
  {
    extractedValues := [];
    for idx := 0 to |t.fieldTypes|
      invariant extractedValues == LeavesAll(input.fields[..idx])
    {
      var extractedValue := input.fields[idx];
      LeavesAppend(input.fields[..idx], [extractedValue]);
      assert input.fields[..idx + 1] == input.fields[..idx] + [extractedValue];
      assert LeavesAll([extractedValue]) == Leaves(extractedValue) + LeavesAll([]);
      if t.fieldTypes[idx].StateType? {
        var nested := BuildExtractValueOps(t.fieldTypes[idx], extractedValue);
        extractedValues := extractedValues + nested;
      } else {
        extractedValues := extractedValues + [extractedValue];
      }
    }
    assert input.fields[..|t.fieldTypes|] == input.fields;
  }

  /** What the creation of a state computes, given that its cursor never moves: every field is
      read from the front of the inputs. */
  function FrontBuilt(t: Type, inputs: seq<Value>): Value
    requires Width(t) <= |inputs|
    decreases t
  {
    if t.StateType? then
      State(seq(|t.fieldTypes|, k requires 0 <= k < |t.fieldTypes| =>
        OffsetStep(t.fieldTypes, k);
        FrontBuilt(t.fieldTypes[k], inputs[..Width(t.fieldTypes[k])])))
    else inputs[0]
  }

  /** Creates a state as the pass does: `cursor` is never advanced. */
  method BuildCreateStateOp(t: Type, inputs: seq<Value>) returns (state: Value)
    requires t.StateType? && |inputs| == Width(t)
    ensures state == FrontBuilt(t, inputs)
    decreases t
  {
    var operands: seq<Value> := [];
    var cursor := 0;
    for i := 0 to |t.fieldTypes|
      invariant |operands| == i
      invariant forall k | 0 <= k < i :: operands[k] == FrontBuilt(t, inputs).fields[k]
    {
      var fieldType := t.fieldTypes[i];
      OffsetStep(t.fieldTypes, i);
      var operand;
      if fieldType.StateType? {
        operand := BuildCreateStateOp(fieldType, inputs[cursor..cursor + Width(fieldType)]);
      } else {
        operand := inputs[cursor];
      }
      operands := operands + [operand];
    }
    state := State(operands);
    assert operands == FrontBuilt(t, inputs).fields;
  }

  function Repeat(v: Value, n: nat): seq<Value> {
    seq(n, _ => v)
  }

  /** Copies of the first of the inputs, if there is one. */
  function Copies(inputs: seq<Value>, n: nat): seq<Value> {
    if inputs == [] then [] else Repeat(inputs[0], n)
  }

  lemma CopiesConcat(inputs: seq<Value>, a: nat, w: nat)
    requires w <= |inputs|
    ensures Copies(inputs, a) + Copies(inputs[..w], w) == Copies(inputs, a + w)
  {
  }

  lemma NoCopies(inputs: seq<Value>)
    ensures Copies(inputs, 0) == []
  {
  }

  /** All leaves of the created state are copies of the first input. */
  lemma {:induction false} FrontBuiltLeaves(t: Type, inputs: seq<Value>)
    requires Width(t) <= |inputs| && NoStates(inputs)
    ensures Leaves(FrontBuilt(t, inputs)) == Copies(inputs, Width(t))
    decreases t, 1
  {
    if t.StateType? {
      FrontBuiltLeavesUpTo(t, inputs, |t.fieldTypes|);
      var fields := FrontBuilt(t, inputs).fields;
      assert fields[..|fields|] == fields;
      assert t.fieldTypes[..|t.fieldTypes|] == t.fieldTypes;
    } else {
      assert inputs[0] in inputs;
    }
  }

  lemma {:induction false} LeavesOfPrefix(vs: seq<Value>, k: nat)
    requires k < |vs|
    ensures LeavesAll(vs[..k + 1]) == LeavesAll(vs[..k]) + Leaves(vs[k])
  {
    LeavesAppend(vs[..k], [vs[k]]);
    assert vs[..k + 1] == vs[..k] + [vs[k]];
    assert LeavesAll([vs[k]]) == Leaves(vs[k]) + LeavesAll([]);
  }

  lemma NothingBuilt(t: Type, inputs: seq<Value>)
    requires t.StateType? && Width(t) <= |inputs|
    ensures FrontBuilt(t, inputs).State? && |FrontBuilt(t, inputs).fields| == |t.fieldTypes|
    ensures LeavesAll(FrontBuilt(t, inputs).fields[..0]) == [] && Offset(t.fieldTypes, 0) == 0
  {
  }

  lemma BuiltField(t: Type, inputs: seq<Value>, k: nat)
    requires t.StateType? && Width(t) <= |inputs| && NoStates(inputs) && k < |t.fieldTypes|
    ensures Width(t.fieldTypes[k]) <= |inputs| && NoStates(inputs[..Width(t.fieldTypes[k])])
    ensures FrontBuilt(t, inputs).State? && |FrontBuilt(t, inputs).fields| == |t.fieldTypes|
    ensures FrontBuilt(t, inputs).fields[k] == FrontBuilt(t.fieldTypes[k], inputs[..Width(t.fieldTypes[k])])
  {
    OffsetStep(t.fieldTypes, k);
  }

  lemma {:induction false} FrontBuiltLeavesUpTo(t: Type, inputs: seq<Value>, n: nat)
    requires t.StateType? && Width(t) <= |inputs| && NoStates(inputs) && n <= |t.fieldTypes|
    ensures FrontBuilt(t, inputs).State? && |FrontBuilt(t, inputs).fields| == |t.fieldTypes|
    ensures LeavesAll(FrontBuilt(t, inputs).fields[..n]) == Copies(inputs, Offset(t.fieldTypes, n))
    decreases t, 0, n
  {
    hide FrontBuilt, Leaves, LeavesAll, Width, WidthAll, Offset, Copies, NoStates;
    if n == 0 {
      NothingBuilt(t, inputs);
      NoCopies(inputs);
    } else {
      var ft := t.fieldTypes[n - 1];
      BuiltField(t, inputs, n - 1);
      OffsetStep(t.fieldTypes, n - 1);
      FrontBuiltLeavesUpTo(t, inputs, n - 1);
      FrontBuiltLeaves(ft, inputs[..Width(ft)]);
      LeavesOfPrefix(FrontBuilt(t, inputs).fields, n - 1);
      CopiesConcat(inputs, Offset(t.fieldTypes, n - 1), Width(ft));
    }
  }

  lemma {:induction false} FrontBuiltShaped(t: Type, inputs: seq<Value>)
    requires Width(t) <= |inputs| && NoStates(inputs)
    ensures Shaped(FrontBuilt(t, inputs), t)
    decreases t
  {
    if t.StateType? {
      forall k | 0 <= k < |t.fieldTypes|
        ensures Shaped(FrontBuilt(t, inputs).fields[k], t.fieldTypes[k])
      {
        OffsetStep(t.fieldTypes, k);
        FrontBuiltShaped(t.fieldTypes[k], inputs[..Width(t.fieldTypes[k])]);
      }
    } else {
      assert inputs[0] in inputs;
    }
  }

  predicate AllEqual(leaves: seq<Value>) {
    forall k | 0 <= k < |leaves| :: leaves[k] == leaves[0]
  }

  /** Creating a state from the leaves of a state gives it back exactly if the leaves are equal. */
  lemma {:induction false} CreateAfterExtract(t: Type, v: Value)
    requires Shaped(v, t)
    ensures |Leaves(v)| == Width(t)
    ensures FrontBuilt(t, Leaves(v)) == v <==> AllEqual(Leaves(v))
  {
    LeavesWidth(v, t);
    var leaves := Leaves(v);
    FrontBuiltLeaves(t, leaves);
    if AllEqual(leaves) {
      var w := FrontBuilt(t, leaves);
      assert Leaves(w) == leaves;
      FrontBuiltShaped(t, leaves);
      RebuildLeaves(t, w);
      RebuildLeaves(t, v);
    }
  }

  /** Two different leaves: the second field of the created state is a copy of the first. */
  lemma TwoFieldsAreNotRestored()
    ensures var t, v := StateType([I1, I32]), State([Bool(true), Int(7)]);
            && HasType(v, t) && Width(t) == 2 && Leaves(v) == [Bool(true), Int(7)]
            && FrontBuilt(t, Leaves(v)) == State([Bool(true), Bool(true)])
  {
    var t, v := StateType([I1, I32]), State([Bool(true), Int(7)]);
    assert t.fieldTypes[1..] == [I32] && [I32][1..] == [] && Width(t) == 1 + (1 + 0);
    assert v.fields[1..] == [Int(7)] && [Int(7)][1..] == [];
    assert Leaves(v) == [Bool(true)] + ([Int(7)] + []);
    assert FrontBuilt(t, Leaves(v)).fields == [Bool(true), Bool(true)];
  }

  // ----- When all states of a type are restored -----

  /** The types of the leaves of a value of type `t`, in order. */
  function LeafTypes(t: Type): (r: seq<Type>)
    ensures |r| == Width(t)
    decreases t, 1
  {
    if t.StateType? then LeafTypesAll(t.fieldTypes) else [t]
  }

  function LeafTypesAll(ts: seq<Type>): (r: seq<Type>)
    ensures |r| == WidthAll(ts)
    decreases ts, 0
  {
    if ts == [] then [] else LeafTypes(ts[0]) + LeafTypesAll(ts[1..])
  }

  predicate LeavesTyped(leaves: seq<Value>, types: seq<Type>) {
    |leaves| == |types| && forall k | 0 <= k < |leaves| :: HasType(leaves[k], types[k])
  }

  /** A state that is rebuilt from leaves of the right types has the right type. */
  lemma {:induction false} RebuildTyped(t: Type, leaves: seq<Value>)
    requires LeavesTyped(leaves, LeafTypes(t))
    ensures HasType(Rebuild(t, leaves), t)
    decreases t, 1
  {
    if t.StateType? {
      RebuildTypedAll(t.fieldTypes, leaves);
    }
  }

  lemma {:induction false} RebuildTypedAll(ts: seq<Type>, leaves: seq<Value>)
    requires LeavesTyped(leaves, LeafTypesAll(ts))
    ensures forall k | 0 <= k < |ts| :: HasType(RebuildAll(ts, leaves)[k], ts[k])
    decreases ts, 0
  {
    if ts != [] {
      var w := Width(ts[0]);
      var all := LeafTypesAll(ts);
      assert all[..w] == LeafTypes(ts[0]) && all[w..] == LeafTypesAll(ts[1..]);
      RebuildTyped(ts[0], leaves[..w]);
      RebuildTypedAll(ts[1..], leaves[w..]);
    }
  }

  lemma {:induction false} LeafTypesAreLeaves(t: Type)
    ensures forall k | 0 <= k < |LeafTypes(t)| :: !LeafTypes(t)[k].StateType?
    decreases t, 1
  {
    if t.StateType? {
      LeafTypesAllAreLeaves(t.fieldTypes);
    }
  }

  lemma {:induction false} LeafTypesAllAreLeaves(ts: seq<Type>)
    ensures forall k | 0 <= k < |LeafTypesAll(ts)| :: !LeafTypesAll(ts)[k].StateType?
    decreases ts, 0
  {
    if ts != [] {
      LeafTypesAreLeaves(ts[0]);
      LeafTypesAllAreLeaves(ts[1..]);
    }
  }

  /** A value of a leaf type; the values for zero differ from those for one, for all types. */
  function Sample(t: Type, n: nat): (v: Value)
    requires !t.StateType? && n <= 1
    ensures HasType(v, t) && !v.State?
  {
    match t
    case I1 => Bool(n == 1)
    case ViewType => View(n, [])
    case _ => Int(n)
  }

  /** A type with two leaves has a state that is not restored. */
  lemma {:induction false} SomeStateIsNotRestored(t: Type) returns (v: Value)
    requires Width(t) >= 2
    ensures HasType(v, t) && |Leaves(v)| == Width(t) && FrontBuilt(t, Leaves(v)) != v
  {
    var types := LeafTypes(t);
    LeafTypesAreLeaves(t);
    var leaves := seq(Width(t), k requires 0 <= k < Width(t) => Sample(types[k], if k == 0 then 0 else 1));
    assert leaves[0] != leaves[1];
    v := Rebuild(t, leaves);
    RebuildTyped(t, leaves);
    RebuildShaped(t, leaves);
    LeavesRebuild(t, leaves);
    CreateAfterExtract(t, v);
  }

  /** The round trip through the created state works for all states of a type exactly if the
      type has at most one leaf. */
  lemma {:induction false} CreateInvertsExtract(t: Type)
    ensures (forall v | HasType(v, t) :: |Leaves(v)| == Width(t) && FrontBuilt(t, Leaves(v)) == v)
       <==> Width(t) <= 1
  {
    hide FrontBuilt, Leaves, Width, HasType;
    if Width(t) <= 1 {
      forall v | HasType(v, t)
        ensures |Leaves(v)| == Width(t) && FrontBuilt(t, Leaves(v)) == v
      {
        TypedIsShaped(v, t);
        CreateAfterExtract(t, v);
        assert AllEqual(Leaves(v));
      }
    } else {
      var v := SomeStateIsNotRestored(t);
      assert HasType(v, t) && FrontBuilt(t, Leaves(v)) != v;
    }
  }
}
