/** The lowering of tag regions as the pass does it: region by region, replacing all uses of the
    results of a region and splicing its ops into the parent block. */
module TagLowering {
  import opened Sequences
  import opened TagRegions
  import opened TagInlining

  // ----- Replacement of uses -----

  function SubstOp(op: Op, s: map<nat, nat>): Op
    decreases op
  {
    match op
    case Prim(id, f, operands, results) => Prim(id, f, ApplyAll(s, operands), results)
    case Empty(_, _) => op
    case If(id, condition, thenBlock, elseBlock, results) =>
      If(id, Apply(s, condition), SubstBlock(thenBlock, s), SubstBlock(elseBlock, s), results)
    case TagRegion(id, name, body, results) => TagRegion(id, name, SubstBlock(body, s), results)
  }

  function SubstBlock(block: Block, s: map<nat, nat>): Block
    decreases block
  {
    Block(SubstOps(block.ops, s), ApplyAll(s, block.operands))
  }

  function SubstOps(ops: seq<Op>, s: map<nat, nat>): (r: seq<Op>)
    ensures |r| == |ops|
    decreases ops
  {
    if ops == [] then [] else [SubstOp(ops[0], s)] + SubstOps(ops[1..], s)
  }

  /** The number of ops, including those in regions. */
  function Size(op: Op): nat
    decreases op
  {
    match op
    case Prim(_, _, _, _) => 1
    case Empty(_, _) => 1
    case If(_, _, thenBlock, elseBlock, _) => 1 + SizeAll(thenBlock.ops) + SizeAll(elseBlock.ops)
    case TagRegion(_, _, body, _) => 1 + SizeAll(body.ops)
  }

  function SizeAll(ops: seq<Op>): nat
    decreases ops
  {
    if ops == [] then 0 else Size(ops[0]) + SizeAll(ops[1..])
  }

  /** A replacement of uses keeps definitions and sizes. */
  lemma {:induction false} SubstKeepsOp(op: Op, s: map<nat, nat>)
    ensures Defs(SubstOp(op, s)) == Defs(op) && SubstOp(op, s).results == op.results
    ensures Size(SubstOp(op, s)) == Size(op)
    decreases op
  {
    match op
    case If(_, _, thenBlock, elseBlock, _) =>
      SubstKeeps(thenBlock.ops, s);
      SubstKeeps(elseBlock.ops, s);
    case TagRegion(_, _, body, _) =>
      SubstKeeps(body.ops, s);
    case _ =>
  }

  lemma {:induction false} SubstKeeps(ops: seq<Op>, s: map<nat, nat>)
    ensures OpsDefs(SubstOps(ops, s)) == OpsDefs(ops) && Results(SubstOps(ops, s)) == Results(ops)
    ensures SizeAll(SubstOps(ops, s)) == SizeAll(ops)
    decreases ops
  {
    if ops != [] {
      SubstKeepsOp(ops[0], s);
      SubstKeeps(ops[1..], s);
    }
  }

  ghost predicate MapsInto(s: map<nat, nat>, from: set<nat>, to: set<nat>) {
    forall v | v in from :: Apply(s, v) in to
  }

  lemma MapsAll(s: map<nat, nat>, from: set<nat>, to: set<nat>, vs: seq<nat>)
    requires MapsInto(s, from, to) && ToSet(vs) <= from
    ensures ToSet(ApplyAll(s, vs)) <= to
  {
    forall v | v in ToSet(ApplyAll(s, vs))
      ensures v in to
    {
      var k :| 0 <= k < |vs| && Apply(s, vs[k]) == v;
      assert vs[k] in ToSet(vs);
    }
  }

  /** A replacement of uses by visible values keeps ops valid. */
  lemma {:induction false} SubstValidOp(op: Op, s: map<nat, nat>, visible: set<nat>, visible': set<nat>, seen: set<nat>)
    requires ValidOp(op, visible, seen) && MapsInto(s, visible, visible') && s.Keys <= seen
    ensures ValidOp(SubstOp(op, s), visible', seen)
    decreases op
  {
    match op
    case Prim(_, _, operands, _) =>
      MapsAll(s, visible, visible', operands);
    case Empty(_, _) =>
    case If(_, condition, thenBlock, elseBlock, results) =>
      SubstKeeps(thenBlock.ops, s);
      SubstKeeps(elseBlock.ops, s);
      var seen' := seen + OpsDefs(thenBlock.ops);
      SubstValid(thenBlock.ops, thenBlock.operands, s, visible, visible', seen);
      SubstValid(elseBlock.ops, elseBlock.operands, s, visible, visible', seen');
    case TagRegion(_, _, body, results) =>
      SubstKeeps(body.ops, s);
      SubstValid(body.ops, body.operands, s, visible, visible', seen);
  }

  lemma {:induction false} SubstValid(ops: seq<Op>, operands: seq<nat>, s: map<nat, nat>,
                                      visible: set<nat>, visible': set<nat>, seen: set<nat>)
    requires ValidOps(ops, visible, seen) && MapsInto(s, visible, visible') && s.Keys <= seen
    requires ToSet(operands) <= visible + Results(ops)
    ensures ValidOps(SubstOps(ops, s), visible', seen)
    ensures ToSet(ApplyAll(s, operands)) <= visible' + Results(SubstOps(ops, s))
    decreases ops
  {
    if ops == [] {
      MapsAll(s, visible, visible', operands);
    } else {
      var op := ops[0];
      SubstValidOp(op, s, visible, visible', seen);
      SubstKeepsOp(op, s);
      ResultsAreNew(op, visible, seen);
      var v, v' := visible + ToSet(op.results), visible' + ToSet(op.results);
      assert MapsInto(s, v, v');
      SubstValid(ops[1..], operands, s, v, v', seen + Defs(op));
    }
  }

  // ----- Replacing first and inlining then is inlining under the replacement -----

  /** First `s`, then `t`, is `u`. */
  ghost predicate Composes(s: map<nat, nat>, t: map<nat, nat>, u: map<nat, nat>) {
    forall v: nat :: Apply(u, v) == Apply(t, Apply(s, v))
  }

  ghost predicate Within(s: map<nat, nat>, seen: set<nat>) {
    s.Keys <= seen && forall v | v in s :: s[v] in seen
  }

  lemma ComposesAll(s: map<nat, nat>, t: map<nat, nat>, u: map<nat, nat>, vs: seq<nat>)
    requires Composes(s, t, u)
    ensures ApplyAll(t, ApplyAll(s, vs)) == ApplyAll(u, vs)
  {
  }

  lemma {:induction false} ComposesReplace(s: map<nat, nat>, t: map<nat, nat>, u: map<nat, nat>, seen: set<nat>,
                                           results: seq<nat>, subst: seq<nat>)
    requires Composes(s, t, u) && Within(s, seen) && ToSet(results) !! seen
    requires |results| == |subst| && NoDuplicates(results)
    ensures Composes(s, Replace(t, results, subst), Replace(u, results, subst))
  {
    var t', u' := Replace(t, results, subst), Replace(u, results, subst);
    forall v: nat
      ensures Apply(u', v) == Apply(t', Apply(s, v))
    {
      ReplaceApply(u, results, subst, v);
      ReplaceApply(t, results, subst, Apply(s, v));
      if v in ToSet(results) {
        var k :| 0 <= k < |results| && results[k] == v;
        assert v !in s;
      } else {
        assert Apply(s, v) !in results;
      }
    }
  }

  lemma {:induction false} SubstThenInline(ops: seq<Op>, operands: seq<nat>, s: map<nat, nat>, t: map<nat, nat>,
                                           u: map<nat, nat>, visible: set<nat>, seen: set<nat>)
    requires ValidOps(ops, visible, seen) && Within(s, seen) && Composes(s, t, u)
    ensures Inlined(SubstOps(ops, s), ApplyAll(s, operands), t) == Inlined(ops, operands, u)
    decreases ops, 1
  {
    if ops == [] {
      ComposesAll(s, t, u, operands);
    } else {
      var op := ops[0];
      ResultsAreNew(op, visible, seen);
      assert SubstOps(ops, s)[0] == SubstOp(op, s) && SubstOps(ops, s)[1..] == SubstOps(ops[1..], s);
      var visible', seen' := visible + ToSet(op.results), seen + Defs(op);
      if op.TagRegion? {
        var body := op.body;
        var first := SubstOps(ops, s)[0];
        assert first.body == SubstBlock(body, s);
        assert first.body.ops == SubstOps(body.ops, s) && first.body.operands == ApplyAll(s, body.operands);
        SubstThenInline(body.ops, body.operands, s, t, u, visible, seen);
        var r := Inlined(body.ops, body.operands, u).operands;
        InlinedOperandsLength(body.ops, body.operands, u);
        ComposesReplace(s, t, u, seen, op.results, r);
        SubstThenInline(ops[1..], operands, s, Replace(t, op.results, r), Replace(u, op.results, r), visible', seen');
      } else {
        SubstThenInlineOp(op, s, t, u, visible, seen);
        SubstThenInline(ops[1..], operands, s, t, u, visible', seen');
      }
    }
  }

  lemma {:induction false} SubstThenInlineOp(op: Op, s: map<nat, nat>, t: map<nat, nat>, u: map<nat, nat>,
                                             visible: set<nat>, seen: set<nat>)
    requires ValidOp(op, visible, seen) && Within(s, seen) && Composes(s, t, u) && !op.TagRegion?
    ensures InlinedOp(SubstOp(op, s), t) == InlinedOp(op, u)
    decreases op
  {
    match op
    case Prim(_, _, operands, _) =>
      ComposesAll(s, t, u, operands);
    case Empty(_, _) =>
    case If(_, _, thenBlock, elseBlock, _) =>
      SubstThenInline(thenBlock.ops, thenBlock.operands, s, t, u, visible, seen);
      SubstThenInline(elseBlock.ops, elseBlock.operands, s, t, u, visible, seen + OpsDefs(thenBlock.ops));
  }

  lemma {:induction false} InlinedOperandsLength(ops: seq<Op>, operands: seq<nat>, s: map<nat, nat>)
    ensures |Inlined(ops, operands, s).operands| == |operands|
    decreases ops
  {
    if ops != [] {
      if ops[0].TagRegion? {
        var body := Inlined(ops[0].body.ops, ops[0].body.operands, s);
        InlinedOperandsLength(ops[1..], operands, Replace(s, ops[0].results, body.operands));
      } else {
        InlinedOperandsLength(ops[1..], operands, s);
      }
    }
  }

  // ----- The pass -----

  /** Lowers the tag regions of a block, inner regions first. For each region, the uses of its
      results are replaced by the operands of its terminator, its ops are spliced into the block
      and the region is erased. */
  method LowerTagRegions(block: Block, ghost visible: set<nat>, ghost seen: set<nat>) returns (r: Block)
    requires ValidOps(block.ops, visible, seen) && visible <= seen
    requires ToSet(block.operands) <= visible + Results(block.ops)
    ensures r == Inlined(block.ops, block.operands, map[])
    decreases SizeAll(block.ops)
  {
    var done: seq<Op> := [];
    var rest, operands := block.ops, block.operands;
    ghost var known, used := visible, seen;
    while rest != []
      invariant ValidOps(rest, known, used) && known <= used
      invariant ToSet(operands) <= known + Results(rest)
      invariant SizeAll(rest) <= SizeAll(block.ops)
      invariant Inlined(block.ops, block.operands, map[])
             == Block(done + Inlined(rest, operands, map[]).ops, Inlined(rest, operands, map[]).operands)
      decreases |rest|
    {
      var op := rest[0];
      ghost var before := Inlined(rest, operands, map[]);
      ResultsAreNew(op, known, used);
      var spliced: seq<Op>;
      ghost var known', used' := known + ToSet(op.results), used + Defs(op);
      if op.TagRegion? {
        var body := LowerTagRegions(op.body, known, used);
        var s := Replace(map[], op.results, body.operands);
        RegionStep(rest, operands, body, known, used);
        known := known + ToSet(body.operands);
        spliced := body.ops;
        rest, operands := SubstOps(rest[1..], s), ApplyAll(s, operands);
      } else {
        var lowered := LowerNested(op, known, used);
        known := known';
        spliced := [lowered];
        rest := rest[1..];
      }
      used := used';
      ghost var after := Inlined(rest, operands, map[]);
      assert before.ops == spliced + after.ops;
      ConcatAssociates(done, spliced, after.ops);
      done := done + spliced;
    }
    r := Block(done, operands);
    assert ApplyAll(map[], operands) == operands;
  }

  /** Lowers the tag regions in the regions of an op. */
  method LowerNested(op: Op, ghost visible: set<nat>, ghost seen: set<nat>) returns (r: Op)
    requires ValidOp(op, visible, seen) && visible <= seen && !op.TagRegion?
    ensures r == InlinedOp(op, map[])
    decreases Size(op), 0
  {
    r := op;
    if op.If? {
      var thenBlock := LowerTagRegions(op.thenBlock, visible, seen);
      var elseBlock := LowerTagRegions(op.elseBlock, visible, seen + OpsDefs(op.thenBlock.ops));
      r := If(op.id, op.condition, thenBlock, elseBlock, op.results);
    } else if op.Prim? {
      assert ApplyAll(map[], op.operands) == op.operands;
    }
  }

  /** One region: replacing the uses of its results keeps the rest of the block valid, and the
      rest is then inlined without a substitution. */
  lemma {:induction false} RegionStep(rest: seq<Op>, operands: seq<nat>, body: Block, known: set<nat>, used: set<nat>)
    requires rest != [] && rest[0].TagRegion?
    requires ValidOps(rest, known, used) && known <= used && ToSet(operands) <= known + Results(rest)
    requires body == Inlined(rest[0].body.ops, rest[0].body.operands, map[])
    ensures var s := Replace(map[], rest[0].results, body.operands);
            var rest', operands' := SubstOps(rest[1..], s), ApplyAll(s, operands);
            && ValidOps(rest', known + ToSet(body.operands), used + Defs(rest[0]))
            && known + ToSet(body.operands) <= used + Defs(rest[0])
            && ToSet(operands') <= known + ToSet(body.operands) + Results(rest')
            && SizeAll(rest') == SizeAll(rest[1..])
            && Inlined(rest, operands, map[])
            == Block(body.ops + Inlined(rest', operands', map[]).ops, Inlined(rest', operands', map[]).operands)
  {
    var op, tail := rest[0], rest[1..];
    var known', used' := known + ToSet(op.results), used + Defs(op);
    ResultsAreNew(op, known, used);
    InlinedOperandsSeen(op.body.ops, op.body.operands, map[], known, used);
    var s := Replace(map[], op.results, body.operands);
    RegionReplacement(op.results, body.operands, known, used, used');
    SubstThenInline(tail, operands, s, map[], s, known', used');
    SubstValid(tail, operands, s, known', known + ToSet(body.operands), used');
    SubstKeeps(tail, s);
  }

  lemma {:induction false} RegionReplacement(results: seq<nat>, subst: seq<nat>, known: set<nat>, used: set<nat>,
                                             used': set<nat>)
    requires |results| == |subst| && NoDuplicates(results) && ToSet(results) !! used && known <= used
    requires used + ToSet(results) <= used' && ToSet(subst) <= used'
    ensures var s := Replace(map[], results, subst);
            && s.Keys == ToSet(results) && Within(s, used') && Composes(s, map[], s)
            && MapsInto(s, known + ToSet(results), known + ToSet(subst))
  {
    var s := Replace(map[], results, subst);
    forall v: nat
      ensures v !in results ==> v !in s
      ensures v in results ==> v in s && s[v] in ToSet(subst)
    {
      ReplaceApply(map[], results, subst, v);
      if v in results {
        var k :| 0 <= k < |results| && results[k] == v;
        assert subst[k] in ToSet(subst);
      }
    }
  }
}
