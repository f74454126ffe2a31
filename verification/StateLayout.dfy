/** Flattening of nested iterator states into lists of leaf values, and back. */
module StateLayout {
  import opened Values

  /** `v` has the nesting structure of `t`. */
  predicate Shaped(v: Value, t: Type)
    decreases t
  {
    if t.StateType? then
      && v.State? && |v.fields| == |t.fieldTypes|
      && forall k | 0 <= k < |v.fields| :: Shaped(v.fields[k], t.fieldTypes[k])
    else !v.State?
  }

  predicate ShapedAll(vs: seq<Value>, ts: seq<Type>) {
    |vs| == |ts| && forall k | 0 <= k < |vs| :: Shaped(vs[k], ts[k])
  }

  /** The number of leaf values of a value of type `t`. */
  function Width(t: Type): nat
    decreases t, 1
  {
    if t.StateType? then WidthAll(t.fieldTypes) else 1
  }

  function WidthAll(ts: seq<Type>): nat
    decreases ts, 0
  {
    if ts == [] then 0 else Width(ts[0]) + WidthAll(ts[1..])
  }

  /** The position of the first leaf of field `k` in the list of all leaves. */
  function Offset(ts: seq<Type>, k: nat): nat
    requires k <= |ts|
  {
    WidthAll(ts[..k])
  }

  /** The leaf values of `v`, in order. */
  function Leaves(v: Value): seq<Value>
    decreases v, 1
  {
    if v.State? then LeavesAll(v.fields) else [v]
  }

  function LeavesAll(vs: seq<Value>): seq<Value>
    decreases vs, 0
  {
    if vs == [] then [] else Leaves(vs[0]) + LeavesAll(vs[1..])
  }

  predicate NoStates(leaves: seq<Value>) {
    forall l | l in leaves :: !l.State?
  }

  /** Rebuilds a value from its leaves, moving past the leaves of each field. */
  function Rebuild(t: Type, leaves: seq<Value>): Value
    requires |leaves| == Width(t)
    decreases t, 1
  {
    if t.StateType? then State(RebuildAll(t.fieldTypes, leaves)) else leaves[0]
  }

  function RebuildAll(ts: seq<Type>, leaves: seq<Value>): (vs: seq<Value>)
    requires |leaves| == WidthAll(ts)
    ensures |vs| == |ts|
    decreases ts, 0
  {
    if ts == [] then []
    else
      var w := Width(ts[0]);
      [Rebuild(ts[0], leaves[..w])] + RebuildAll(ts[1..], leaves[w..])
  }

  lemma {:induction false} LeavesWidth(v: Value, t: Type)
    requires Shaped(v, t)
    ensures |Leaves(v)| == Width(t) && NoStates(Leaves(v))
    decreases t, 1
  {
    if t.StateType? {
      LeavesWidthAll(v.fields, t.fieldTypes);
    }
  }

  lemma {:induction false} LeavesWidthAll(vs: seq<Value>, ts: seq<Type>)
    requires ShapedAll(vs, ts)
    ensures |LeavesAll(vs)| == WidthAll(ts) && NoStates(LeavesAll(vs))
    decreases ts, 0
  {
    if ts != [] {
      LeavesWidth(vs[0], ts[0]);
      LeavesWidthAll(vs[1..], ts[1..]);
    }
  }

  lemma {:induction false} RebuildShaped(t: Type, leaves: seq<Value>)
    requires |leaves| == Width(t) && NoStates(leaves)
    ensures Shaped(Rebuild(t, leaves), t)
    decreases t, 1
  {
    if t.StateType? {
      RebuildShapedAll(t.fieldTypes, leaves);
    }
  }

  lemma {:induction false} RebuildShapedAll(ts: seq<Type>, leaves: seq<Value>)
    requires |leaves| == WidthAll(ts) && NoStates(leaves)
    ensures ShapedAll(RebuildAll(ts, leaves), ts)
    decreases ts, 0
  {
    if ts != [] {
      var w := Width(ts[0]);
      RebuildShaped(ts[0], leaves[..w]);
      RebuildShapedAll(ts[1..], leaves[w..]);
    }
  }

  /** Rebuilding a flattened state gives it back. */
  lemma {:induction false} RebuildLeaves(t: Type, v: Value)
    requires Shaped(v, t)
    ensures |Leaves(v)| == Width(t) && Rebuild(t, Leaves(v)) == v
    decreases t, 1
  {
    LeavesWidth(v, t);
    if t.StateType? {
      RebuildLeavesAll(t.fieldTypes, v.fields);
    }
  }

  lemma {:induction false} RebuildLeavesAll(ts: seq<Type>, vs: seq<Value>)
    requires ShapedAll(vs, ts)
    ensures |LeavesAll(vs)| == WidthAll(ts) && RebuildAll(ts, LeavesAll(vs)) == vs
    decreases ts, 0
  {
    LeavesWidthAll(vs, ts);
    if ts != [] {
      var all, w := LeavesAll(vs), Width(ts[0]);
      LeavesWidth(vs[0], ts[0]);
      assert all[..w] == Leaves(vs[0]) && all[w..] == LeavesAll(vs[1..]);
      RebuildLeaves(ts[0], vs[0]);
      RebuildLeavesAll(ts[1..], vs[1..]);
    }
  }

  /** Flattening a rebuilt state gives the leaves back. */
  lemma {:induction false} LeavesRebuild(t: Type, leaves: seq<Value>)
    requires |leaves| == Width(t) && NoStates(leaves)
    ensures Leaves(Rebuild(t, leaves)) == leaves
    decreases t, 1
  {
    if t.StateType? {
      LeavesRebuildAll(t.fieldTypes, leaves);
    } else {
      assert leaves[0] in leaves;
    }
  }

  lemma {:induction false} LeavesRebuildAll(ts: seq<Type>, leaves: seq<Value>)
    requires |leaves| == WidthAll(ts) && NoStates(leaves)
    ensures LeavesAll(RebuildAll(ts, leaves)) == leaves
    decreases ts, 0
  {
    if ts != [] {
      var w := Width(ts[0]);
      assert leaves == leaves[..w] + leaves[w..];
      assert RebuildAll(ts, leaves)[1..] == RebuildAll(ts[1..], leaves[w..]);
      LeavesRebuild(ts[0], leaves[..w]);
      LeavesRebuildAll(ts[1..], leaves[w..]);
    }
  }

  lemma {:induction false} LeavesAppend(vs: seq<Value>, ws: seq<Value>)
    ensures LeavesAll(vs + ws) == LeavesAll(vs) + LeavesAll(ws)
    decreases |vs|
  {
    if vs == [] {
      assert vs + ws == ws;
    } else {
      LeavesAppend(vs[1..], ws);
      assert (vs + ws)[1..] == vs[1..] + ws;
    }
  }

  lemma {:induction false} WidthAppend(ts: seq<Type>, us: seq<Type>)
    ensures WidthAll(ts + us) == WidthAll(ts) + WidthAll(us)
    decreases |ts|
  {
    if ts == [] {
      assert ts + us == us;
    } else {
      WidthAppend(ts[1..], us);
      assert (ts + us)[1..] == ts[1..] + us;
    }
  }

  lemma {:induction false} OffsetStep(ts: seq<Type>, k: nat)
    requires k < |ts|
    ensures Offset(ts, k + 1) == Offset(ts, k) + Width(ts[k])
    ensures Offset(ts, k + 1) <= WidthAll(ts)
  {
    WidthAppend(ts[..k], [ts[k]]);
    assert ts[..k + 1] == ts[..k] + [ts[k]];
    WidthAppend(ts[..k + 1], ts[k + 1..]);
    assert ts == ts[..k + 1] + ts[k + 1..];
  }

  /** The leaves before field `k`, of field `k`, and after it. */
  lemma {:induction false} LeavesSplit(vs: seq<Value>, k: nat)
    requires k < |vs|
    ensures LeavesAll(vs) == LeavesAll(vs[..k]) + Leaves(vs[k]) + LeavesAll(vs[k + 1..])
  {
    LeavesAppend(vs[..k], vs[k..]);
    assert vs[..k] + vs[k..] == vs;
    assert vs[k..][1..] == vs[k + 1..];
  }

  /** The leaves of field `k` are the slice at its offset. */
  lemma {:induction false} LeavesOfField(ts: seq<Type>, vs: seq<Value>, k: nat)
    requires ShapedAll(vs, ts) && k < |ts|
    ensures Offset(ts, k) + Width(ts[k]) <= |LeavesAll(vs)|
    ensures LeavesAll(vs)[Offset(ts, k)..Offset(ts, k) + Width(ts[k])] == Leaves(vs[k])
  {
    LeavesSplit(vs, k);
    LeavesWidthAll(vs[..k], ts[..k]);
    LeavesWidth(vs[k], ts[k]);
  }

  /** Replacing a field replaces exactly its leaves. */
  lemma {:induction false} LeavesOfUpdate(ts: seq<Type>, vs: seq<Value>, k: nat, v: Value)
    requires ShapedAll(vs, ts) && k < |ts| && Shaped(v, ts[k])
    ensures Offset(ts, k) + Width(ts[k]) <= |LeavesAll(vs)|
    ensures LeavesAll(vs[k := v])
         == LeavesAll(vs)[..Offset(ts, k)] + Leaves(v)
          + LeavesAll(vs)[Offset(ts, k) + Width(ts[k])..]
  {
    var vs' := vs[k := v];
    LeavesSplit(vs, k);
    LeavesSplit(vs', k);
    LeavesWidthAll(vs[..k], ts[..k]);
    LeavesWidth(vs[k], ts[k]);
    assert vs'[..k] == vs[..k] && vs'[k + 1..] == vs[k + 1..];
    hide LeavesAll, Leaves, WidthAll;
    assert LeavesAll(vs)[..Offset(ts, k)] == LeavesAll(vs[..k]);
    assert LeavesAll(vs)[Offset(ts, k) + Width(ts[k])..] == LeavesAll(vs[k + 1..]);
  }

  lemma {:induction false} TypedIsShaped(v: Value, t: Type)
    requires HasType(v, t)
    ensures Shaped(v, t)
    decreases t
  {
    if t.StateType? {
      forall k | 0 <= k < |t.fieldTypes|
        ensures Shaped(v.fields[k], t.fieldTypes[k])
      {
        TypedIsShaped(v.fields[k], t.fieldTypes[k]);
      }
    }
  }
}
