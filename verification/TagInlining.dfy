/** The inlining of tag regions. */
module TagInlining {
  import opened TagRegions

  // ----- The inlining, with one substitution that collects the replaced results -----

  function Apply(s: map<nat, nat>, v: nat): nat {
    if v in s then s[v] else v
  }

  function ApplyAll(s: map<nat, nat>, vs: seq<nat>): seq<nat> {
    seq(|vs|, k requires 0 <= k < |vs| => Apply(s, vs[k]))
  }

  function Replace(s: map<nat, nat>, results: seq<nat>, subst: seq<nat>): map<nat, nat>
    decreases results
  {
    if results == [] || subst == [] then s else Replace(s[results[0] := subst[0]], results[1..], subst[1..])
  }

  /** The ops without tag regions, and the operands of the terminator, under a substitution. */
  function Inlined(ops: seq<Op>, operands: seq<nat>, s: map<nat, nat>): Block
    decreases ops
  {
    if ops == [] then Block([], ApplyAll(s, operands))
    else if ops[0].TagRegion? then
      var body := Inlined(ops[0].body.ops, ops[0].body.operands, s);
      var rest := Inlined(ops[1..], operands, Replace(s, ops[0].results, body.operands));
      Block(body.ops + rest.ops, rest.operands)
    else
      var rest := Inlined(ops[1..], operands, s);
      Block([InlinedOp(ops[0], s)] + rest.ops, rest.operands)
  }

  function InlinedOp(op: Op, s: map<nat, nat>): Op
    requires !op.TagRegion?
    decreases op
  {
    match op
    case Prim(id, f, operands, results) => Prim(id, f, ApplyAll(s, operands), results)
    case Empty(_, _) => op
    case If(id, condition, thenBlock, elseBlock, results) =>
      If(id, Apply(s, condition), Inlined(thenBlock.ops, thenBlock.operands, s),
         Inlined(elseBlock.ops, elseBlock.operands, s), results)
  }

  /** The ids of the ops in execution order, tag regions aside. */
  function OpIds(ops: seq<Op>): seq<nat>
    decreases ops
  {
    if ops == [] then [] else OwnIds(ops[0]) + OpIds(ops[1..])
  }

  function OwnIds(op: Op): seq<nat>
    decreases op
  {
    match op
    case Prim(id, _, _, _) => [id]
    case Empty(id, _) => [id]
    case If(id, _, thenBlock, elseBlock, _) => [id] + OpIds(thenBlock.ops) + OpIds(elseBlock.ops)
    case TagRegion(_, _, body, _) => OpIds(body.ops)
  }

  predicate NoTagRegions(ops: seq<Op>)
    decreases ops
  {
    ops != [] ==> IsNoTagRegion(ops[0]) && NoTagRegions(ops[1..])
  }

  predicate IsNoTagRegion(op: Op)
    decreases op
  {
    match op
    case If(_, _, thenBlock, elseBlock, _) => NoTagRegions(thenBlock.ops) && NoTagRegions(elseBlock.ops)
    case TagRegion(_, _, _, _) => false
    case _ => true
  }

  lemma {:induction false} ShapeAppend(a: seq<Op>, b: seq<Op>)
    ensures OpIds(a + b) == OpIds(a) + OpIds(b)
    ensures NoTagRegions(a) && NoTagRegions(b) ==> NoTagRegions(a + b)
    decreases a
  {
    if a == [] {
      assert a + b == b;
    } else {
      assert (a + b)[1..] == a[1..] + b;
      ShapeAppend(a[1..], b);
      assert OwnIds(a[0]) + (OpIds(a[1..]) + OpIds(b)) == (OwnIds(a[0]) + OpIds(a[1..])) + OpIds(b);
    }
  }

  /** After the inlining there is no tag region left, and all other ops are there, in order. */
  lemma {:induction false} InlinedShape(ops: seq<Op>, operands: seq<nat>, s: map<nat, nat>)
    ensures NoTagRegions(Inlined(ops, operands, s).ops)
    ensures OpIds(Inlined(ops, operands, s).ops) == OpIds(ops)
    decreases ops
  {
    if ops != [] {
      var op := ops[0];
      if op.TagRegion? {
        InlinedShape(op.body.ops, op.body.operands, s);
        var body := Inlined(op.body.ops, op.body.operands, s);
        var s' := Replace(s, op.results, body.operands);
        InlinedShape(ops[1..], operands, s');
        ShapeAppend(body.ops, Inlined(ops[1..], operands, s').ops);
      } else {
        InlinedShape(ops[1..], operands, s);
        var rest := Inlined(ops[1..], operands, s);
        assert ([InlinedOp(op, s)] + rest.ops)[1..] == rest.ops;
        if op.If? {
          InlinedShape(op.thenBlock.ops, op.thenBlock.operands, s);
          InlinedShape(op.elseBlock.ops, op.elseBlock.operands, s);
        }
      }
    }
  }

  // ----- Simulation -----

  /** Visible values are found under their substitutes. */
  ghost predicate Related(env: Env, env': Env, s: map<nat, nat>, visible: set<nat>) {
    forall v | v in visible :: Lookup(env, v) == Lookup(env', Apply(s, v))
  }

  /** The substitution only concerns values that have been seen. */
  ghost predicate Settled(s: map<nat, nat>, visible: set<nat>, seen: set<nat>) {
    && visible <= seen && s.Keys <= seen
    && forall v | v in visible :: Apply(s, v) in seen
  }

  lemma RelatedLookups(env: Env, env': Env, s: map<nat, nat>, visible: set<nat>, vs: seq<nat>)
    requires Related(env, env', s, visible) && ToSet(vs) <= visible
    ensures LookupAll(env, vs) == LookupAll(env', ApplyAll(s, vs))
  {
    forall k | 0 <= k < |vs|
      ensures Lookup(env, vs[k]) == Lookup(env', Apply(s, vs[k]))
    {
      assert vs[k] in ToSet(vs);
    }
  }

  /** New results get the same values in both environments. */
  lemma {:induction false} RelatedDefine(env: Env, env': Env, s: map<nat, nat>, visible: set<nat>, seen: set<nat>,
                                         results: seq<nat>, values: seq<int>)
    requires Related(env, env', s, visible) && Settled(s, visible, seen)
    requires |results| == |values| && NoDuplicates(results) && ToSet(results) !! seen
    ensures Related(Define(env, results, values), Define(env', results, values), s, visible + ToSet(results))
  {
    forall v | v in visible + ToSet(results)
      ensures Lookup(Define(env, results, values), v) == Lookup(Define(env', results, values), Apply(s, v))
    {
      DefineLookup(env, results, values, v);
      DefineLookup(env', results, values, Apply(s, v));
      if v in ToSet(results) {
        var k :| 0 <= k < |results| && results[k] == v;
      }
    }
  }

  lemma {:induction false} ReplaceApply(s: map<nat, nat>, results: seq<nat>, subst: seq<nat>, v: nat)
    requires |results| == |subst|
    ensures v !in results ==> Apply(Replace(s, results, subst), v) == Apply(s, v)
    ensures NoDuplicates(results) ==>
              forall k | 0 <= k < |results| :: Apply(Replace(s, results, subst), results[k]) == subst[k]
    ensures Replace(s, results, subst).Keys == s.Keys + ToSet(results)
    decreases results
  {
    if results != [] {
      var s' := s[results[0] := subst[0]];
      ReplaceApply(s', results[1..], subst[1..], v);
      if NoDuplicates(results) {
        assert NoDuplicates(results[1..]);
        forall k | 0 <= k < |results|
          ensures Apply(Replace(s, results, subst), results[k]) == subst[k]
        {
          if k == 0 {
            ReplaceApply(s', results[1..], subst[1..], results[0]);
          } else {
            assert results[1..][k - 1] == results[k];
          }
        }
      }
    }
  }

  /** A region's results are found under the operands of its terminator. */
  lemma {:induction false} RelatedReplace(env: Env, env': Env, s: map<nat, nat>, visible: set<nat>, seen: set<nat>,
                                          results: seq<nat>, values: seq<int>, subst: seq<nat>)
    requires Related(env, env', s, visible) && Settled(s, visible, seen)
    requires |results| == |values| == |subst| && NoDuplicates(results) && ToSet(results) !! seen
    requires LookupAll(env', subst) == values
    ensures Related(Define(env, results, values), env', Replace(s, results, subst), visible + ToSet(results))
  {
    forall v | v in visible + ToSet(results)
      ensures Lookup(Define(env, results, values), v) == Lookup(env', Apply(Replace(s, results, subst), v))
    {
      DefineLookup(env, results, values, v);
      ReplaceApply(s, results, subst, v);
      if v in ToSet(results) {
        var k :| 0 <= k < |results| && results[k] == v;
        assert LookupAll(env', subst)[k] == Lookup(env', subst[k]);
      }
    }
  }

  lemma {:induction false} SettledReplace(s: map<nat, nat>, visible: set<nat>, seen: set<nat>, seen': set<nat>,
                                          results: seq<nat>, subst: seq<nat>)
    requires Settled(s, visible, seen) && seen + ToSet(results) <= seen'
    requires |results| == |subst| && NoDuplicates(results) && ToSet(subst) <= seen'
    requires ToSet(results) !! visible
    ensures Settled(Replace(s, results, subst), visible + ToSet(results), seen')
  {
    forall v | v in visible + ToSet(results)
      ensures Apply(Replace(s, results, subst), v) in seen'
    {
      ReplaceApply(s, results, subst, v);
      if v in ToSet(results) {
        var k :| 0 <= k < |results| && results[k] == v;
        assert subst[k] in ToSet(subst);
      }
    }
    ReplaceApply(s, results, subst, 0);
  }

  /** The operands of the inlined terminator have been seen. */
  lemma {:induction false} InlinedOperandsSeen(ops: seq<Op>, operands: seq<nat>, s: map<nat, nat>,
                                               visible: set<nat>, seen: set<nat>)
    requires ValidOps(ops, visible, seen) && Settled(s, visible, seen)
    requires ToSet(operands) <= visible + Results(ops)
    ensures ToSet(Inlined(ops, operands, s).operands) <= seen + OpsDefs(ops)
    ensures |Inlined(ops, operands, s).operands| == |operands|
    decreases ops
  {
    if ops == [] {
      forall v | v in ToSet(ApplyAll(s, operands))
        ensures v in seen
      {
        var k :| 0 <= k < |operands| && Apply(s, operands[k]) == v;
        assert operands[k] in ToSet(operands);
      }
    } else {
      var op := ops[0];
      var seen' := seen + Defs(op);
      assert ToSet(op.results) !! seen && ToSet(op.results) <= Defs(op) by {
        ResultsAreNew(op, visible, seen);
      }
      if op.TagRegion? {
        InlinedOperandsSeen(op.body.ops, op.body.operands, s, visible, seen);
        var subst := Inlined(op.body.ops, op.body.operands, s).operands;
        SettledReplace(s, visible, seen, seen', op.results, subst);
        InlinedOperandsSeen(ops[1..], operands, Replace(s, op.results, subst), visible + ToSet(op.results), seen');
      } else {
        SettledExtend(s, visible, seen, seen', op.results);
        InlinedOperandsSeen(ops[1..], operands, s, visible + ToSet(op.results), seen');
      }
    }
  }

  lemma ResultsAreNew(op: Op, visible: set<nat>, seen: set<nat>)
    requires ValidOp(op, visible, seen)
    ensures ToSet(op.results) !! seen && ToSet(op.results) <= Defs(op) && NoDuplicates(op.results)
  {
  }

  lemma SettledExtend(s: map<nat, nat>, visible: set<nat>, seen: set<nat>, seen': set<nat>, results: seq<nat>)
    requires Settled(s, visible, seen) && seen + ToSet(results) <= seen' && ToSet(results) !! seen
    ensures Settled(s, visible + ToSet(results), seen')
  {
  }

  /** The inlined ops execute the same steps with the same operand values, in the same order, and
      the terminator gets the same values. */
  lemma {:induction false} InlinedEval(ops: seq<Op>, operands: seq<nat>, s: map<nat, nat>, env: Env, env': Env,
                                       visible: set<nat>, seen: set<nat>)
    requires ValidOps(ops, visible, seen) && Settled(s, visible, seen)
    requires ToSet(operands) <= visible + Results(ops)
    requires Related(env, env', s, visible)
    ensures var r := Inlined(ops, operands, s);
            && EvalOps(ops, env).1 == EvalOps(r.ops, env').1
            && LookupAll(EvalOps(ops, env).0, operands) == LookupAll(EvalOps(r.ops, env').0, r.operands)
            && Related(EvalOps(ops, env).0, EvalOps(r.ops, env').0, s, visible)
    decreases ops, 1
  {
    if ops == [] {
      RelatedLookups(env, env', s, visible, operands);
    } else {
      ResultsAreNew(ops[0], visible, seen);
      if ops[0].TagRegion? {
        InlinedEvalRegion(ops, operands, s, env, env', visible, seen);
      } else {
        InlinedEvalOther(ops, operands, s, env, env', visible, seen);
      }
    }
  }

  lemma {:induction false} InlinedEvalRegion(ops: seq<Op>, operands: seq<nat>, s: map<nat, nat>, env: Env, env': Env,
                                             visible: set<nat>, seen: set<nat>)
    requires ValidOps(ops, visible, seen) && Settled(s, visible, seen)
    requires ToSet(operands) <= visible + Results(ops)
    requires Related(env, env', s, visible) && ops != [] && ops[0].TagRegion?
    ensures var r := Inlined(ops, operands, s);
            && EvalOps(ops, env).1 == EvalOps(r.ops, env').1
            && LookupAll(EvalOps(ops, env).0, operands) == LookupAll(EvalOps(r.ops, env').0, r.operands)
            && Related(EvalOps(ops, env).0, EvalOps(r.ops, env').0, s, visible)
    decreases ops, 0
  {
    var op := ops[0];
    var body := op.body;
    var visible', seen' := visible + ToSet(op.results), seen + Defs(op);
    ResultsAreNew(op, visible, seen);
    var inner := Inlined(body.ops, body.operands, s);
    InlinedEval(body.ops, body.operands, s, env, env', visible, seen);
    InlinedOperandsSeen(body.ops, body.operands, s, visible, seen);
    var s' := Replace(s, op.results, inner.operands);
    SettledReplace(s, visible, seen, seen', op.results, inner.operands);
    var (e1, t1) := EvalOps(body.ops, env);
    var (e1', t1') := EvalOps(inner.ops, env');
    RelatedReplace(e1, e1', s, visible, seen, op.results, LookupAll(e1, body.operands), inner.operands);
    var e2 := EvalOp(op, env).0;
    InlinedEval(ops[1..], operands, s', e2, e1', visible', seen');
    var rest := Inlined(ops[1..], operands, s');
    EvalAppend(inner.ops, rest.ops, env');
    RelatedRestrict(EvalOps(ops[1..], e2).0, EvalOps(rest.ops, e1').0, s, op.results, inner.operands, visible);
  }

  lemma {:induction false} RelatedRestrict(env: Env, env': Env, s: map<nat, nat>, results: seq<nat>, subst: seq<nat>,
                                           visible: set<nat>)
    requires |results| == |subst| && ToSet(results) !! visible
    requires Related(env, env', Replace(s, results, subst), visible + ToSet(results))
    ensures Related(env, env', s, visible)
  {
    forall v | v in visible
      ensures Lookup(env, v) == Lookup(env', Apply(s, v))
    {
      ReplaceApply(s, results, subst, v);
    }
  }

  lemma {:induction false} InlinedEvalOther(ops: seq<Op>, operands: seq<nat>, s: map<nat, nat>, env: Env, env': Env,
                                            visible: set<nat>, seen: set<nat>)
    requires ValidOps(ops, visible, seen) && Settled(s, visible, seen)
    requires ToSet(operands) <= visible + Results(ops)
    requires Related(env, env', s, visible) && ops != [] && !ops[0].TagRegion?
    ensures var r := Inlined(ops, operands, s);
            && EvalOps(ops, env).1 == EvalOps(r.ops, env').1
            && LookupAll(EvalOps(ops, env).0, operands) == LookupAll(EvalOps(r.ops, env').0, r.operands)
            && Related(EvalOps(ops, env).0, EvalOps(r.ops, env').0, s, visible)
    decreases ops, 0
  {
    var op := ops[0];
    var visible', seen' := visible + ToSet(op.results), seen + Defs(op);
    ResultsAreNew(op, visible, seen);
    SettledExtend(s, visible, seen, seen', op.results);
    InlinedOpEval(op, s, env, env', visible, seen);
    var (e, t) := EvalOp(op, env);
    var (e', t') := EvalOp(InlinedOp(op, s), env');
    InlinedEval(ops[1..], operands, s, e, e', visible', seen');
    var rest := Inlined(ops[1..], operands, s);
    assert ([InlinedOp(op, s)] + rest.ops)[1..] == rest.ops;
  }

  lemma {:induction false} InlinedOpEval(op: Op, s: map<nat, nat>, env: Env, env': Env,
                                         visible: set<nat>, seen: set<nat>)
    requires ValidOp(op, visible, seen) && Settled(s, visible, seen) && !op.TagRegion?
    requires Related(env, env', s, visible)
    ensures EvalOp(op, env).1 == EvalOp(InlinedOp(op, s), env').1
    ensures Related(EvalOp(op, env).0, EvalOp(InlinedOp(op, s), env').0, s, visible + ToSet(op.results))
    decreases op
  {
    match op
    case Prim(_, f, operands, results) =>
      RelatedLookups(env, env', s, visible, operands);
      var args := LookupAll(env, operands);
      RelatedDefine(env, env', s, visible, seen, results, seq(|results|, k => f(args, k)));
    case Empty(_, results) =>
      RelatedDefine(env, env', s, visible, seen, results, seq(|results|, _ => 0));
    case If(_, condition, thenBlock, elseBlock, results) =>
      var c := Lookup(env, condition);
      var block := if c != 0 then thenBlock else elseBlock;
      var seenB := if c != 0 then seen else seen + OpsDefs(thenBlock.ops);
      InlinedEval(block.ops, block.operands, s, env, env', visible, seenB);
      RelatedDefine(env, env', s, visible, seen, results, LookupAll(EvalOps(block.ops, env).0, block.operands));
  }

  /** For every block: inlining its tag regions, however they are nested, does not change what is
      executed, with which operand values and in which order, nor the values of its terminator. */
  lemma {:induction false} InliningPreservesMeaning(block: Block, visible: set<nat>, env: Env)
    requires ValidBlock(block, visible)
    ensures var r := Inlined(block.ops, block.operands, map[]);
            && EvalOps(r.ops, env).1 == EvalOps(block.ops, env).1
            && LookupAll(EvalOps(r.ops, env).0, r.operands) == LookupAll(EvalOps(block.ops, env).0, block.operands)
  {
    InlinedEval(block.ops, block.operands, map[], env, env, visible, visible);
  }
}
