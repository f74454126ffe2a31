/** The lowering of tag regions gives valid IR again. */
module TagValidity {
  import opened TagRegions
  import opened TagInlining
  import opened TagLowering

  /** Ops that are valid stay valid if fewer values have been seen before. */
  lemma {:induction false} ValidOpWithFewerSeen(op: Op, visible: set<nat>, seen: set<nat>, fewer: set<nat>)
    requires ValidOp(op, visible, seen) && fewer <= seen
    ensures ValidOp(op, visible, fewer)
    decreases op
  {
    match op
    case If(_, _, thenBlock, elseBlock, _) =>
      ValidWithFewerSeen(thenBlock.ops, visible, seen, fewer);
      ValidWithFewerSeen(elseBlock.ops, visible, seen + OpsDefs(thenBlock.ops), fewer + OpsDefs(thenBlock.ops));
    case TagRegion(_, _, body, _) =>
      ValidWithFewerSeen(body.ops, visible, seen, fewer);
    case _ =>
  }

  lemma {:induction false} ValidWithFewerSeen(ops: seq<Op>, visible: set<nat>, seen: set<nat>, fewer: set<nat>)
    requires ValidOps(ops, visible, seen) && fewer <= seen
    ensures ValidOps(ops, visible, fewer)
    decreases ops
  {
    if ops != [] {
      ValidOpWithFewerSeen(ops[0], visible, seen, fewer);
      ValidWithFewerSeen(ops[1..], visible + ToSet(ops[0].results), seen + Defs(ops[0]), fewer + Defs(ops[0]));
    }
  }

  lemma {:induction false} ValidAppend(a: seq<Op>, b: seq<Op>, visible: set<nat>, seen: set<nat>)
    requires ValidOps(a, visible, seen) && ValidOps(b, visible + Results(a), seen + OpsDefs(a))
    ensures ValidOps(a + b, visible, seen)
    ensures Results(a + b) == Results(a) + Results(b) && OpsDefs(a + b) == OpsDefs(a) + OpsDefs(b)
    decreases a
  {
    hide ValidOp, Defs;
    if a == [] {
      assert a + b == b && visible + {} == visible && seen + {} == seen;
    } else {
      assert (a + b)[0] == a[0] && (a + b)[1..] == a[1..] + b;
      var visible', seen' := visible + ToSet(a[0].results), seen + Defs(a[0]);
      assert visible' + Results(a[1..]) == visible + Results(a) && seen' + OpsDefs(a[1..]) == seen + OpsDefs(a);
      ValidAppend(a[1..], b, visible', seen');
    }
  }

  lemma {:induction false} ReplaceMapsInto(s: map<nat, nat>, results: seq<nat>, subst: seq<nat>, visible: set<nat>,
                                           to: set<nat>, seen: set<nat>)
    requires MapsInto(s, visible, to) && visible <= seen && ToSet(results) !! seen
    requires |results| == |subst| && NoDuplicates(results) && ToSet(subst) <= to
    ensures MapsInto(Replace(s, results, subst), visible + ToSet(results), to)
  {
    forall v | v in visible + ToSet(results)
      ensures Apply(Replace(s, results, subst), v) in to
    {
      ReplaceApply(s, results, subst, v);
      if v in ToSet(results) {
        var k :| 0 <= k < |results| && results[k] == v;
        assert subst[k] in ToSet(subst);
      }
    }
  }

  lemma NewResultsMapInto(s: map<nat, nat>, results: seq<nat>, visible: set<nat>, to: set<nat>, seen: set<nat>)
    requires MapsInto(s, visible, to) && s.Keys <= seen && ToSet(results) !! seen
    ensures MapsInto(s, visible + ToSet(results), to + ToSet(results))
  {
  }

  /** What is inlined under a substitution by visible values is valid, and defines nothing new. */
  ghost predicate IsValidResult(r: Block, ops: seq<Op>, visible: set<nat>, seen: set<nat>) {
    && ValidOps(r.ops, visible, seen) && ToSet(r.operands) <= visible + Results(r.ops)
    && OpsDefs(r.ops) <= OpsDefs(ops)
  }

  lemma {:induction false} InlinedIsValid(ops: seq<Op>, operands: seq<nat>, s: map<nat, nat>, visible: set<nat>,
                                          visible': set<nat>, seen: set<nat>)
    requires ValidOps(ops, visible, seen) && ToSet(operands) <= visible + Results(ops)
    requires visible <= seen && MapsInto(s, visible, visible') && s.Keys <= seen
    ensures IsValidResult(Inlined(ops, operands, s), ops, visible', seen)
    decreases ops, 1
  {
    if ops == [] {
      MapsAll(s, visible, visible', operands);
    } else if ops[0].TagRegion? {
      InlinedRegionIsValid(ops, operands, s, visible, visible', seen);
    } else {
      InlinedRestIsValid(ops, operands, s, visible, visible', seen);
    }
  }

  lemma {:induction false} InlinedRegionIsValid(ops: seq<Op>, operands: seq<nat>, s: map<nat, nat>,
                                                visible: set<nat>, visible': set<nat>, seen: set<nat>)
    requires ops != [] && ops[0].TagRegion?
    requires ValidOps(ops, visible, seen) && ToSet(operands) <= visible + Results(ops)
    requires visible <= seen && MapsInto(s, visible, visible') && s.Keys <= seen
    ensures IsValidResult(Inlined(ops, operands, s), ops, visible', seen)
    decreases ops, 0
  {
    hide MapsInto;
    var op := ops[0];
    var body := Inlined(op.body.ops, op.body.operands, s);
    InlinedIsValid(op.body.ops, op.body.operands, s, visible, visible', seen);
    InlinedOperandsLength(op.body.ops, op.body.operands, s);
    var s' := Replace(s, op.results, body.operands);
    var inner := visible' + Results(body.ops);
    MoreTargets(s, visible, visible', inner);
    ReplaceMapsInto(s, op.results, body.operands, visible, inner, seen);
    ReplaceApply(s, op.results, body.operands, 0);
    InlinedIsValid(ops[1..], operands, s', visible + ToSet(op.results), inner, seen + Defs(op));
    var rest := Inlined(ops[1..], operands, s');
    ValidWithFewerSeen(rest.ops, inner, seen + Defs(op), seen + OpsDefs(body.ops));
    ValidAppend(body.ops, rest.ops, visible', seen);
  }

  lemma MoreTargets(s: map<nat, nat>, from: set<nat>, to: set<nat>, more: set<nat>)
    requires MapsInto(s, from, to) && to <= more
    ensures MapsInto(s, from, more)
  {
  }

  lemma {:induction false} InlinedRestIsValid(ops: seq<Op>, operands: seq<nat>, s: map<nat, nat>,
                                              visible: set<nat>, visible': set<nat>, seen: set<nat>)
    requires ops != [] && !ops[0].TagRegion?
    requires ValidOps(ops, visible, seen) && ToSet(operands) <= visible + Results(ops)
    requires visible <= seen && MapsInto(s, visible, visible') && s.Keys <= seen
    ensures IsValidResult(Inlined(ops, operands, s), ops, visible', seen)
    decreases ops, 0
  {
    hide MapsInto;
    var op := ops[0];
    InlinedOpIsValid(op, s, visible, visible', seen);
    ResultsAreNew(op, visible, seen);
    NewResultsMapInto(s, op.results, visible, visible', seen);
    InlinedIsValid(ops[1..], operands, s, visible + ToSet(op.results), visible' + ToSet(op.results), seen + Defs(op));
    var op', rest := InlinedOp(op, s), Inlined(ops[1..], operands, s);
    ValidWithFewerSeen(rest.ops, visible' + ToSet(op.results), seen + Defs(op), seen + Defs(op'));
    var all := [op'] + rest.ops;
    assert all[0] == op' && all[1..] == rest.ops;
  }

  lemma {:induction false} InlinedOpIsValid(op: Op, s: map<nat, nat>, visible: set<nat>, visible': set<nat>,
                                            seen: set<nat>)
    requires ValidOp(op, visible, seen) && !op.TagRegion?
    requires visible <= seen && MapsInto(s, visible, visible') && s.Keys <= seen
    ensures ValidOp(InlinedOp(op, s), visible', seen)
    ensures Defs(InlinedOp(op, s)) <= Defs(op) && InlinedOp(op, s).results == op.results
    decreases op
  {
    match op
    case Prim(_, _, operands, _) =>
      MapsAll(s, visible, visible', operands);
    case Empty(_, _) =>
    case If(_, condition, thenBlock, elseBlock, _) =>
      var seen' := seen + OpsDefs(thenBlock.ops);
      InlinedIsValid(thenBlock.ops, thenBlock.operands, s, visible, visible', seen);
      InlinedIsValid(elseBlock.ops, elseBlock.operands, s, visible, visible', seen');
      InlinedOperandsLength(thenBlock.ops, thenBlock.operands, s);
      InlinedOperandsLength(elseBlock.ops, elseBlock.operands, s);
      var inner := Inlined(thenBlock.ops, thenBlock.operands, s).ops;
      ValidWithFewerSeen(Inlined(elseBlock.ops, elseBlock.operands, s).ops, visible', seen', seen + OpsDefs(inner));
  }

  /** The lowering of a valid block is a valid block. */
  lemma {:induction false} InliningPreservesValidity(block: Block, visible: set<nat>)
    requires ValidBlock(block, visible)
    ensures ValidBlock(Inlined(block.ops, block.operands, map[]), visible)
  {
    InlinedIsValid(block.ops, block.operands, map[], visible, visible, visible);
  }
}
