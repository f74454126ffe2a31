/** Blocks of ops with nested tag regions, and what they compute. */
module TagRegions {

  /** Ops refer to SSA values by number; `id` identifies the op itself. `Empty` is `tensor.empty`;
      `If` stands for the ops with regions other than tag regions. */
  datatype Op =
    | Prim(id: nat, f: (seq<int>, int) -> int, operands: seq<nat>, results: seq<nat>)
    | Empty(id: nat, results: seq<nat>)
    | If(id: nat, condition: nat, thenBlock: Block, elseBlock: Block, results: seq<nat>)
    | TagRegion(id: nat, name: string, body: Block, results: seq<nat>)

  /** Ops and the operands of the terminator. */
  datatype Block = Block(ops: seq<Op>, operands: seq<nat>)

  type Env = map<nat, int>

  /** An op has been executed with these operand values. */
  datatype Step = Step(id: nat, operands: seq<int>)

  function Lookup(env: Env, v: nat): int {
    if v in env then env[v] else 0
  }

  function LookupAll(env: Env, vs: seq<nat>): seq<int> {
    seq(|vs|, k requires 0 <= k < |vs| => Lookup(env, vs[k]))
  }

  function Define(env: Env, results: seq<nat>, values: seq<int>): Env
    requires |results| == |values|
    decreases results
  {
    if results == [] then env else Define(env[results[0] := values[0]], results[1..], values[1..])
  }

  // ----- Evaluation -----

  /** The values after the ops, and what has been executed. */
  function EvalOps(ops: seq<Op>, env: Env): (Env, seq<Step>)
    decreases ops
  {
    if ops == [] then (env, [])
    else
      var (env', steps) := EvalOp(ops[0], env);
      var (env'', steps') := EvalOps(ops[1..], env');
      (env'', steps + steps')
  }

  function EvalOp(op: Op, env: Env): (Env, seq<Step>)
    decreases op
  {
    match op
    case Prim(id, f, operands, results) =>
      var args := LookupAll(env, operands);
      (Define(env, results, seq(|results|, k => f(args, k))), [Step(id, args)])
    case Empty(id, results) =>
      (Define(env, results, seq(|results|, _ => 0)), [Step(id, [])])
    case If(id, condition, thenBlock, elseBlock, results) =>
      var c := Lookup(env, condition);
      var block := if c != 0 then thenBlock else elseBlock;
      var (env', steps) := EvalOps(block.ops, env);
      (Define(env, results, Fit(LookupAll(env', block.operands), |results|)), [Step(id, [c])] + steps)
    case TagRegion(_, _, body, results) =>
      var (env', steps) := EvalOps(body.ops, env);
      (Define(env', results, Fit(LookupAll(env', body.operands), |results|)), steps)
  }

  /** As many values as there are results. */
  function Fit(values: seq<int>, n: nat): (r: seq<int>)
    ensures |r| == n
    ensures |values| == n ==> r == values
  {
    if |values| == n then values else seq(n, _ => 0)
  }

  // ----- Valid IR -----

  function ToSet(vs: seq<nat>): set<nat> {
    set v | v in vs
  }

  predicate NoDuplicates(vs: seq<nat>) {
    forall i, j | 0 <= i < j < |vs| :: vs[i] != vs[j]
  }

  /** All values that are defined in an op, including its regions. */
  function Defs(op: Op): set<nat>
    decreases op
  {
    match op
    case Prim(_, _, _, results) => ToSet(results)
    case Empty(_, results) => ToSet(results)
    case If(_, _, thenBlock, elseBlock, results) =>
      OpsDefs(thenBlock.ops) + OpsDefs(elseBlock.ops) + ToSet(results)
    case TagRegion(_, _, body, results) => OpsDefs(body.ops) + ToSet(results)
  }

  function OpsDefs(ops: seq<Op>): set<nat>
    decreases ops
  {
    if ops == [] then {} else Defs(ops[0]) + OpsDefs(ops[1..])
  }

  /** The results of the ops themselves. */
  function Results(ops: seq<Op>): set<nat> {
    if ops == [] then {} else ToSet(ops[0].results) + Results(ops[1..])
  }

  /** Operands are visible; results are new, i.e., neither seen before nor defined inside. */
  predicate ValidOp(op: Op, visible: set<nat>, seen: set<nat>)
    decreases op
  {
    && NoDuplicates(op.results)
    && match op
       case Prim(_, _, operands, results) => ToSet(operands) <= visible && ToSet(results) !! seen
       case Empty(_, results) => ToSet(results) !! seen
       case If(_, condition, thenBlock, elseBlock, results) =>
         && condition in visible
         && ValidOps(thenBlock.ops, visible, seen)
         && ValidOps(elseBlock.ops, visible, seen + OpsDefs(thenBlock.ops))
         && ToSet(thenBlock.operands) <= visible + Results(thenBlock.ops)
         && ToSet(elseBlock.operands) <= visible + Results(elseBlock.ops)
         && |thenBlock.operands| == |elseBlock.operands| == |results|
         && ToSet(results) !! seen + OpsDefs(thenBlock.ops) + OpsDefs(elseBlock.ops)
       case TagRegion(_, _, body, results) =>
         && ValidOps(body.ops, visible, seen)
         && ToSet(body.operands) <= visible + Results(body.ops)
         && |body.operands| == |results|
         && ToSet(results) !! seen + OpsDefs(body.ops)
  }

  predicate ValidOps(ops: seq<Op>, visible: set<nat>, seen: set<nat>)
    decreases ops
  {
    ops != [] ==>
      && ValidOp(ops[0], visible, seen)
      && ValidOps(ops[1..], visible + ToSet(ops[0].results), seen + Defs(ops[0]))
  }

  /** A block whose free values are the given ones. */
  predicate ValidBlock(block: Block, visible: set<nat>) {
    ValidOps(block.ops, visible, visible) && ToSet(block.operands) <= visible + Results(block.ops)
  }

  // ----- Facts about evaluation -----

  lemma {:induction false} EvalAppend(a: seq<Op>, b: seq<Op>, env: Env)
    ensures var (env', steps) := EvalOps(a, env);
            var (env'', steps') := EvalOps(b, env');
            EvalOps(a + b, env) == (env'', steps + steps')
    decreases a
  {
    if a == [] {
      assert a + b == b;
      assert [] + EvalOps(b, env).1 == EvalOps(b, env).1;
    } else {
      assert (a + b)[1..] == a[1..] + b;
      var (env1, s1) := EvalOp(a[0], env);
      EvalAppend(a[1..], b, env1);
      var (env2, s2) := EvalOps(a[1..], env1);
      var (env3, s3) := EvalOps(b, env2);
      assert s1 + (s2 + s3) == (s1 + s2) + s3;
    }
  }

  /** Defining results gives them their values and changes nothing else. */
  lemma {:induction false} DefineLookup(env: Env, results: seq<nat>, values: seq<int>, v: nat)
    requires |results| == |values|
    ensures v !in results ==> Lookup(Define(env, results, values), v) == Lookup(env, v)
    ensures NoDuplicates(results) ==>
              forall k | 0 <= k < |results| :: Lookup(Define(env, results, values), results[k]) == values[k]
    decreases results
  {
    if results != [] {
      var env' := env[results[0] := values[0]];
      DefineLookup(env', results[1..], values[1..], v);
      if NoDuplicates(results) {
        assert NoDuplicates(results[1..]);
        forall k | 0 <= k < |results|
          ensures Lookup(Define(env, results, values), results[k]) == values[k]
        {
          if k == 0 {
            DefineLookup(env', results[1..], values[1..], results[0]);
          } else {
            assert results[1..][k - 1] == results[k];
          }
        }
      }
    }
  }
}
