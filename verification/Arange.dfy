/** The length of `arange`, its constant folding, and its canonicalization. */
module Arange {
  import opened Wrappers
  import opened Sequences
  import opened Shapes

  /** Division that rounds towards negative infinity, and the remainder of C++. */
  function FloorDiv(a: int, b: int): int
    requires b > 0
  {
    a / b
  }

  function TruncatedRemainder(a: int, b: int): int
    requires b > 0
  {
    if a >= 0 then a % b else -((-a) % b)
  }

  function GetARangeLen(start: int, stop: int, step: int): int
    requires step > 0
  {
    var len := FloorDiv(stop - start, step) + 1;
    if TruncatedRemainder(stop - start, step) == 0 then len - 1 else len
  }

  /** The loop of the folder. */
  method FoldValues(start: int, stop: int, step: int) returns (arange: seq<int>)
    requires step > 0
    ensures arange == Steps(start, stop, step)
  {
    arange := [];
    var i := start;
    while i < stop
      invariant arange + Steps(i, stop, step) == Steps(start, stop, step)
      decreases stop - i
    {
      ConcatAssociates(arange, [i], Steps(i + step, stop, step));
      arange := arange + [i];
      i := i + step;
    }
  }

  lemma {:induction false} ShiftedLen(start: int, stop: int, step: int)
    requires step > 0
    ensures GetARangeLen(start, stop, step) == GetARangeLen(start + step, stop, step) + 1
  {
    var d := stop - start;
    QuotientOfShift(d, step);
    NegatedRemainder(d, step);
    NegatedRemainder(d - step, step);
  }

  lemma QuotientOfShift(d: int, step: int)
    requires step > 0
    ensures d / step == (d - step) / step + 1 && d % step == (d - step) % step
  {
    var q, r := (d - step) / step, (d - step) % step;
    assert d - step == q * step + r;
    assert d == (q + 1) * step + r;
    DivMod(q + 1, r, step);
  }

  lemma NegatedRemainder(d: int, step: int)
    requires step > 0
    ensures TruncatedRemainder(d, step) == 0 <==> d % step == 0
  {
    var q, r := d / step, d % step;
    assert d == q * step + r;
    if r == 0 {
      assert -d == (-q) * step + 0;
      DivMod(-q, 0, step);
    } else {
      assert -d == (-q - 1) * step + (step - r);
      DivMod(-q - 1, step - r, step);
    }
  }

  /** The computed length is the number of values unless the range is empty by a full step. */
  lemma {:induction false} LengthIsNumberOfValues(start: int, stop: int, step: int)
    requires step > 0
    ensures GetARangeLen(start, stop, step) == |Steps(start, stop, step)| <==> stop - start > -step
    decreases stop - start
  {
    if start < stop {
      ShiftedLen(start, stop, step);
      LengthIsNumberOfValues(start + step, stop, step);
    } else {
      var d := stop - start;
      NegatedRemainder(d, step);
      var q, r := d / step, d % step;
      assert d == q * step + r;
      assert q <= -2 ==> q * step <= -2 * step;
      assert q >= 1 ==> q * step >= step;
      assert q == -1 ==> q * step == -step;
    }
  }

  /** For all other ranges, the computed length is negative. */
  lemma {:induction false} LengthIsNegative(start: int, stop: int, step: int)
    requires step > 0
    ensures GetARangeLen(start, stop, step) < 0 <==> stop - start <= -step
  {
    LengthIsNumberOfValues(start, stop, step);
    if stop - start <= -step {
      var d := stop - start;
      NegatedRemainder(d, step);
      var q, r := d / step, d % step;
      assert d == q * step + r;
      if q >= -1 {
        MultiplesOrdered(0, q + 1, step);
        assert (q + 1) * step == q * step + step;
      }
    }
  }

  /** The computed length is the distance in steps, rounded up, for all ranges. */
  lemma {:induction false} LengthIsRoundedUp(start: int, stop: int, step: int)
    requires step > 0
    ensures var len := GetARangeLen(start, stop, step); (len - 1) * step < stop - start <= len * step
  {
    var d := stop - start;
    NegatedRemainder(d, step);
    var q, r := d / step, d % step;
    assert d == q * step + r;
    assert (q + 1) * step == q * step + step && (q - 1) * step == q * step - step;
  }

  /** The verifier of the op rejects this range, but the type of the result is inferred from the
      length before. */
  lemma NegativeLength()
    ensures GetARangeLen(5, 0, 2) == -2 && Steps(5, 0, 2) == []
  {
  }

  /** The range verifier demands that the length is right, and positive. */
  lemma {:induction false} VerifiedRanges(start: int, stop: int, step: int)
    requires step >= 1 && stop - start > 1
    ensures GetARangeLen(start, stop, step) == |Steps(start, stop, step)| > 0
  {
    LengthIsNumberOfValues(start, stop, step);
  }

  // ----- Canonicalization -----

  /** An index value: the result of a constant op, or any other value. */
  datatype Operand = Constant(value: int) | Dynamic(id: nat)

  /** The op. Start, stop and step are the components 0, 1 and 2. Each is an attribute or an
      operand; `segmentSizes` tells which of them are operands. */
  datatype Op = Op(operands: seq<Operand>, segmentSizes: seq<nat>, attributes: map<nat, int>)

  /** The number of operands of the components below `n`. */
  function Before(segmentSizes: seq<nat>, n: nat): nat
    requires n <= |segmentSizes|
  {
    if n == 0 then 0 else Before(segmentSizes, n - 1) + segmentSizes[n - 1]
  }

  /** Every component is given exactly once, and the operands are all used. */
  predicate WellFormed(op: Op) {
    && |op.segmentSizes| == 3 && Before(op.segmentSizes, 3) == |op.operands|
    && (forall i | 0 <= i < 3 :: op.segmentSizes[i] == if i in op.attributes then 0 else 1)
    && forall i | i in op.attributes :: i < 3
  }

  /** The value of an operand, given the values of what is not constant. */
  function ValueOf(o: Operand, env: nat -> int): int {
    if o.Constant? then o.value else env(o.id)
  }

  /** The value of a component. */
  function Component(op: Op, i: nat, env: nat -> int): int
    requires WellFormed(op) && i < 3
  {
    if i in op.attributes then op.attributes[i]
    else
      BeforeMonotone(op.segmentSizes, i + 1, 3);
      ValueOf(op.operands[Before(op.segmentSizes, i)], env)
  }

  /** The range that the op stands for, if its step is positive. */
  function Denotes(op: Op, env: nat -> int): Option<seq<int>>
    requires WellFormed(op)
  {
    var start, stop, step := Component(op, 0, env), Component(op, 1, env), Component(op, 2, env);
    if step > 0 then Some(Steps(start, stop, step)) else None
  }

  /** With all three attributes, the range is the one that the folder computes. */
  lemma DenotedConstants(op: Op, env: nat -> int)
    requires WellFormed(op) && op.attributes.Keys == {0, 1, 2}
    ensures op.attributes[2] > 0 ==>
              Denotes(op, env) == Some(Steps(op.attributes[0], op.attributes[1], op.attributes[2]))
  {
  }

  /** The pattern applies if some operand is constant. */
  predicate Matches(op: Op) {
    exists k | 0 <= k < |op.operands| :: op.operands[k].Constant?
  }

  /** The operands that are not constant. */
  function DynamicOperands(operands: seq<Operand>): (r: seq<Operand>)
    ensures |r| <= |operands|
  {
    if operands == [] then []
    else
      var rest := DynamicOperands(operands[..|operands| - 1]);
      if operands[|operands| - 1].Constant? then rest else rest + [operands[|operands| - 1]]
  }

  lemma {:induction false} BeforeMonotone(segmentSizes: seq<nat>, a: nat, b: nat)
    requires a <= b <= |segmentSizes|
    ensures Before(segmentSizes, a) <= Before(segmentSizes, b)
    decreases b
  {
    if a < b {
      BeforeMonotone(segmentSizes, a, b - 1);
    }
  }

  lemma {:induction false} BeforeUpdate(segmentSizes: seq<nat>, i: nat, v: nat, n: nat)
    requires n <= i < |segmentSizes|
    ensures Before(segmentSizes[i := v], n) == Before(segmentSizes, n)
    decreases n
  {
    if n > 0 {
      BeforeUpdate(segmentSizes, i, v, n - 1);
    }
  }

  lemma {:induction false} DynamicOperandsCount(operands: seq<Operand>)
    ensures |DynamicOperands(operands)| < |operands| <==> exists k | 0 <= k < |operands| :: operands[k].Constant?
    ensures forall k | 0 <= k < |DynamicOperands(operands)| :: DynamicOperands(operands)[k].Dynamic?
    decreases operands
  {
    if operands != [] {
      var init := operands[..|operands| - 1];
      DynamicOperandsCount(init);
      assert forall k | 0 <= k < |init| :: init[k] == operands[k];
    }
  }

  /** Component `k` of an op that is being built has the value that it has in the old op. */
  ghost predicate Carried(op: Op, operands: seq<Operand>, segmentSizes: seq<nat>, attributes: map<nat, int>, k: nat)
    requires WellFormed(op) && k < 3 && |segmentSizes| == 3
  {
    if segmentSizes[k] == 0 then k in attributes && forall env :: attributes[k] == Component(op, k, env)
    else
      && segmentSizes[k] == 1 && k !in attributes && Before(segmentSizes, k) < |operands|
      && forall env :: ValueOf(operands[Before(segmentSizes, k)], env) == Component(op, k, env)
  }

  lemma CarriedOn(op: Op, operands: seq<Operand>, segmentSizes: seq<nat>, attributes: map<nat, int>, k: nat,
                  more: seq<Operand>, i: nat, v: nat, attributes': map<nat, int>)
    requires WellFormed(op) && k < i < 3 && |segmentSizes| == 3
    requires Carried(op, operands, segmentSizes, attributes, k)
    requires forall j | 0 <= j < i :: (j in attributes <==> j in attributes')
    requires forall j | 0 <= j < i && j in attributes :: attributes'[j] == attributes[j]
    ensures Carried(op, operands + more, segmentSizes[i := v], attributes', k)
  {
    BeforeUpdate(segmentSizes, i, v, k);
  }

  /** What the rewrite has built after the first `i` components. */
  ghost predicate Built(op: Op, operands: seq<Operand>, segmentSizes: seq<nat>, attributes: map<nat, int>, i: nat) {
    && i <= 3 && WellFormed(op) && |segmentSizes| == 3 && |operands| + |attributes| == i
    && Before(segmentSizes, i) == |operands|
    && (forall k | i <= k < 3 :: segmentSizes[k] == 1)
    && (forall k | k in attributes :: k < i)
    && Before(op.segmentSizes, i) <= |op.operands|
    && operands == DynamicOperands(op.operands[..Before(op.segmentSizes, i)])
    && AllCarried(op, operands, segmentSizes, attributes, i)
  }

  ghost predicate AllCarried(op: Op, operands: seq<Operand>, segmentSizes: seq<nat>, attributes: map<nat, int>, n: nat)
    requires WellFormed(op) && n <= 3 && |segmentSizes| == 3
  {
    forall k | 0 <= k < n :: Carried(op, operands, segmentSizes, attributes, k)
  }

  lemma NothingBuilt(op: Op)
    requires WellFormed(op)
    ensures Built(op, [], [1, 1, 1], map[], 0)
  {
  }

  /** Component `i` becomes, or stays, an attribute. */
  lemma AttributeBuilt(op: Op, operands: seq<Operand>, segmentSizes: seq<nat>, attributes: map<nat, int>, i: nat, v: int)
    requires Built(op, operands, segmentSizes, attributes, i) && i < 3
    requires forall env :: Component(op, i, env) == v
    requires op.segmentSizes[i] == 1 ==>
               Before(op.segmentSizes, i) < |op.operands| && op.operands[Before(op.segmentSizes, i)].Constant?
    ensures Built(op, operands, segmentSizes[i := 0], attributes[i := v], i + 1)
  {
    hide DynamicOperands, AllCarried, WellFormed, Component;
    OperandsUpTo(op, i);
    BeforeUpdate(segmentSizes, i, 0, i);
    AttributeCarried(op, operands, segmentSizes, attributes, i, v);
    var attributes' := attributes[i := v];
    assert i !in attributes && |attributes'| == |attributes| + 1;
    assert operands + [] == operands;
    assert operands == DynamicOperands(op.operands[..Before(op.segmentSizes, i + 1)]);
  }

  lemma AttributeCarried(op: Op, operands: seq<Operand>, segmentSizes: seq<nat>, attributes: map<nat, int>, i: nat, v: int)
    requires Built(op, operands, segmentSizes, attributes, i) && i < 3
    requires forall env :: Component(op, i, env) == v
    ensures AllCarried(op, operands, segmentSizes[i := 0], attributes[i := v], i + 1)
  {
    hide DynamicOperands, Component;
    var sizes, attributes' := segmentSizes[i := 0], attributes[i := v];
    assert i !in attributes;
    forall k | 0 <= k < i
      ensures Carried(op, operands, sizes, attributes', k)
    {
      CarriedOn(op, operands, segmentSizes, attributes, k, [], i, 0, attributes');
      assert operands + [] == operands;
    }
    assert Carried(op, operands, sizes, attributes', i);
  }

  /** Component `i` stays an operand. */
  lemma OperandBuilt(op: Op, operands: seq<Operand>, segmentSizes: seq<nat>, attributes: map<nat, int>, i: nat)
    requires Built(op, operands, segmentSizes, attributes, i) && i < 3 && op.segmentSizes[i] == 1
    requires Before(op.segmentSizes, i) < |op.operands| && op.operands[Before(op.segmentSizes, i)].Dynamic?
    ensures Built(op, operands + [op.operands[Before(op.segmentSizes, i)]], segmentSizes, attributes, i + 1)
  {
    hide DynamicOperands, AllCarried, WellFormed, Component;
    OperandsUpTo(op, i);
    OperandCarried(op, operands, segmentSizes, attributes, i);
    assert Before(segmentSizes, i + 1) == |operands| + 1;
  }

  lemma OperandCarried(op: Op, operands: seq<Operand>, segmentSizes: seq<nat>, attributes: map<nat, int>, i: nat)
    requires Built(op, operands, segmentSizes, attributes, i) && i < 3 && op.segmentSizes[i] == 1
    requires Before(op.segmentSizes, i) < |op.operands|
    ensures AllCarried(op, operands + [op.operands[Before(op.segmentSizes, i)]], segmentSizes, attributes, i + 1)
  {
    hide DynamicOperands;
    var val := op.operands[Before(op.segmentSizes, i)];
    assert segmentSizes[i := 1] == segmentSizes;
    forall k | 0 <= k < i
      ensures Carried(op, operands + [val], segmentSizes, attributes, k)
    {
      CarriedOn(op, operands, segmentSizes, attributes, k, [val], i, 1, attributes);
    }
    assert Before(segmentSizes, i) == |operands| && (operands + [val])[|operands|] == val;
    assert Carried(op, operands + [val], segmentSizes, attributes, i);
  }

  lemma OperandsUpTo(op: Op, i: nat)
    requires WellFormed(op) && i < 3
    ensures |op.segmentSizes| == 3
    ensures var b, b' := Before(op.segmentSizes, i), Before(op.segmentSizes, i + 1);
            && b <= b' <= |op.operands| && b' == b + op.segmentSizes[i] && op.segmentSizes[i] <= 1
            && DynamicOperands(op.operands[..b'])
            == DynamicOperands(op.operands[..b])
             + if b' == b || op.operands[b].Constant? then [] else [op.operands[b]]
  {
    BeforeMonotone(op.segmentSizes, i + 1, 3);
    var b, b' := Before(op.segmentSizes, i), Before(op.segmentSizes, i + 1);
    if op.segmentSizes[i] == 1 {
      var all := op.operands[..b'];
      assert all[..|all| - 1] == op.operands[..b];
    } else {
      assert b' == b;
    }
  }

  lemma BuiltIsSame(op: Op, operands: seq<Operand>, segmentSizes: seq<nat>, attributes: map<nat, int>)
    requires Built(op, operands, segmentSizes, attributes, 3)
    ensures var r := Op(operands, segmentSizes, attributes);
            && WellFormed(r) && |operands| + |attributes| == 3 && operands == DynamicOperands(op.operands)
            && forall env :: Denotes(r, env) == Denotes(op, env)
  {
    var r := Op(operands, segmentSizes, attributes);
    assert op.operands[..|op.operands|] == op.operands;
    forall k | 0 <= k < 3
      ensures segmentSizes[k] == if k in attributes then 0 else 1
    {
      assert Carried(op, operands, segmentSizes, attributes, k);
    }
    forall env: nat -> int
      ensures Denotes(r, env) == Denotes(op, env)
    {
      forall k: nat | k < 3
        ensures Component(r, k, env) == Component(op, k, env)
      {
        assert Carried(op, operands, segmentSizes, attributes, k);
      }
    }
  }

  /** The rewrite, component by component. Constant operands become attributes, all other
      operands stay in order. The range stays the same, one application is enough, and it makes
      the number of operands smaller exactly if the pattern matches. */
  method Rewrite(op: Op) returns (r: Op)
    requires WellFormed(op)
    ensures WellFormed(r) && |r.operands| + |r.attributes| == 3
    ensures forall env :: Denotes(r, env) == Denotes(op, env)
    ensures r.operands == DynamicOperands(op.operands) && !Matches(r)
    ensures Matches(op) <==> |r.operands| < |op.operands|
  {
    hide Built, DynamicOperands, Denotes;
    var operands: seq<Operand>, segmentSizes: seq<nat>, attributes: map<nat, int> := [], [1, 1, 1], map[];
    NothingBuilt(op);
    for i := 0 to 3
      invariant |segmentSizes| == 3 && Built(op, operands, segmentSizes, attributes, i)
    {
      if op.segmentSizes[i] == 0 {
        AttributeBuilt(op, operands, segmentSizes, attributes, i, op.attributes[i]);
        attributes := attributes[i := op.attributes[i]];
        segmentSizes := segmentSizes[i := 0];
        continue;
      }
      BeforeMonotone(op.segmentSizes, i + 1, 3);
      var val := op.operands[Before(op.segmentSizes, i)];
      if val.Constant? {
        AttributeBuilt(op, operands, segmentSizes, attributes, i, val.value);
        attributes := attributes[i := val.value];
        segmentSizes := segmentSizes[i := 0];
        continue;
      }
      OperandBuilt(op, operands, segmentSizes, attributes, i);
      operands := operands + [val];
    }
    BuiltIsSame(op, operands, segmentSizes, attributes);
    DynamicOperandsCount(op.operands);
    r := Op(operands, segmentSizes, attributes);
  }
}
