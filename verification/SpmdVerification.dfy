/** When the converted module is verified IR: SSA form, dominance, call signatures and symbols. */
module SpmdVerification {
  import opened SpmdPrograms
  import opened SpmdConversion
  import opened SpmdCorrectness
  import opened SpmdGrids
  import opened SpmdSafety

  // ----- What the verifier demands -----

  predicate BoundFits(v: LoopValue, numParams: nat) {
    v.Constant? || (v.Param? && v.index < numParams)
  }

  predicate BoundsFit(t: Triple, numParams: nat) {
    BoundFits(t.x, numParams) && BoundFits(t.y, numParams) && BoundFits(t.z, numParams)
  }

  predicate BodyIsVerified(f: Func) {
    match f.body
    case External => true
    case Internal(block, results) => BlockSsa(block) && |results| == f.numResults && FuncDominated(f)
    case GridDriver(loop) =>
      && f.numResults == 0
      && BoundsFit(loop.lowerBounds, f.numParams) && BoundsFit(loop.upperBounds, f.numParams)
      && BoundsFit(loop.steps, f.numParams)
      && forall k | 0 <= k < |loop.callArgs| :: loop.callArgs[k].Induction? || BoundFits(loop.callArgs[k], f.numParams)
  }

  predicate PassesVerifier(m: seq<Func>) {
    DistinctNames(m) && CallsMatch(m) && forall i | 0 <= i < |m| :: BodyIsVerified(m[i])
  }

  // ----- SSA form -----

  lemma {:induction false} SsaAppend(a: seq<Instr>, b: seq<Instr>)
    requires BlockSsa(a) && BlockSsa(b) && BlockDefs(a) !! BlockDefs(b)
    ensures BlockSsa(a + b) && BlockDefs(a + b) == BlockDefs(a) + BlockDefs(b)
    decreases a
  {
    if a == [] {
      assert a + b == b;
    } else {
      assert (a + b)[1..] == a[1..] + b;
      SsaAppend(a[1..], b);
    }
  }

  lemma SingleSsa(instr: Instr)
    ensures BlockSsa([instr]) <==> Ssa(instr)
    ensures BlockDefs([instr]) == Defs(instr)
  {
    assert [instr][1..] == [];
  }

  lemma {:induction false} ConvertedSsa(instr: Instr, s: map<nat, Operand>)
    requires Ssa(instr)
    ensures BlockSsa(ConvertInstr(instr, s)) && BlockDefs(ConvertInstr(instr, s)) <= Defs(instr)
    decreases instr
  {
    if instr.GetProgramId? || instr.GetNumPrograms? {
      assert ConvertInstr(instr, s) == [];
    } else {
      hide BlockSsa, BlockDefs;
      SingleSsa(ConvertInstr(instr, s)[0]);
      match instr
      case If(_, thenBlock, elseBlock) =>
        ConvertedBlockSsa(thenBlock, s);
        ConvertedBlockSsa(elseBlock, s);
      case For(_, _, body) =>
        ConvertedBlockSsa(body, s);
      case _ =>
    }
  }

  lemma {:induction false} ConvertedBlockSsa(block: seq<Instr>, s: map<nat, Operand>)
    requires BlockSsa(block)
    ensures BlockSsa(ConvertBlock(block, s)) && BlockDefs(ConvertBlock(block, s)) <= BlockDefs(block)
    decreases block
  {
    if block != [] {
      ConvertedSsa(block[0], s);
      ConvertedBlockSsa(block[1..], s);
      SsaAppend(ConvertInstr(block[0], s), ConvertBlock(block[1..], s));
    }
  }

  // ----- Dominance -----

  /** Results are replaced by grid arguments. */
  ghost predicate ToGridArgs(s: map<nat, Operand>) {
    forall k | k in s :: s[k].Arg? && s[k].index < 6
  }

  lemma {:induction false} SpmdArgsAreGridArgs(instr: Instr)
    ensures ToGridArgs(SpmdArgs(instr))
    decreases instr
  {
    match instr
    case If(_, thenBlock, elseBlock) =>
      BlockSpmdArgsAreGridArgs(thenBlock);
      BlockSpmdArgsAreGridArgs(elseBlock);
    case For(_, _, body) =>
      BlockSpmdArgsAreGridArgs(body);
    case _ =>
  }

  lemma {:induction false} BlockSpmdArgsAreGridArgs(block: seq<Instr>)
    ensures ToGridArgs(BlockSpmdArgs(block))
    decreases block
  {
    if block != [] {
      SpmdArgsAreGridArgs(block[0]);
      BlockSpmdArgsAreGridArgs(block[1..]);
    }
  }

  lemma AvailableForward(o: Operand, s: map<nat, Operand>, n: nat, defined: set<nat>, defined': set<nat>)
    requires Available(o, n, defined) && ToGridArgs(s) && defined - s.Keys <= defined'
    ensures Available(Forward(s, o), n + 6, defined')
  {
    assert o.Res? && o.id !in s ==> o.id in defined - s.Keys;
  }

  lemma AllAvailableForward(os: seq<Operand>, s: map<nat, Operand>, n: nat, defined: set<nat>, defined': set<nat>)
    requires AllAvailable(os, n, defined) && ToGridArgs(s) && defined - s.Keys <= defined'
    ensures AllAvailable(ForwardAll(s, os), n + 6, defined')
    ensures AllAvailable(GridArgs() + ForwardAll(s, os), n + 6, defined')
  {
    forall k | 0 <= k < |os|
      ensures Available(Forward(s, os[k]), n + 6, defined')
    {
      AvailableForward(os[k], s, n, defined, defined');
    }
  }

  /** What an instruction other than an SPMD op needs and provides. */
  lemma {:induction false} ConvertedDominated(instr: Instr, s: map<nat, Operand>, n: nat, defined: set<nat>,
                                              defined': set<nat>)
    requires !instr.GetProgramId? && !instr.GetNumPrograms?
    requires Dominated(instr, n, defined) && Consistent(instr, s) && ToGridArgs(s) && defined - s.Keys <= defined'
    ensures |ConvertInstr(instr, s)| == 1
    ensures Dominated(ConvertInstr(instr, s)[0], n + 6, defined')
    ensures Provides(ConvertInstr(instr, s)[0]) == Provides(instr)
    decreases instr
  {
    match instr
    case Compute(_, _, operands) =>
      AllAvailableForward(operands, s, n, defined, defined');
    case Load(_, address) =>
      AvailableForward(address, s, n, defined, defined');
    case Store(address, stored) =>
      AvailableForward(address, s, n, defined, defined');
      AvailableForward(stored, s, n, defined, defined');
    case Call(_, _, operands) =>
      AllAvailableForward(operands, s, n, defined, defined');
    case If(condition, thenBlock, elseBlock) =>
      AvailableForward(condition, s, n, defined, defined');
      ConvertedBlockDominated(thenBlock, s, n, defined, defined');
      ConvertedBlockDominated(elseBlock, s, n, defined, defined');
    case For(id, count, body) =>
      AvailableForward(count, s, n, defined, defined');
      ConvertedBlockDominated(body, s, n, defined + {id}, defined' + {id});
  }

  lemma {:induction false} ConvertedBlockDominated(block: seq<Instr>, s: map<nat, Operand>, n: nat,
                                                   defined: set<nat>, defined': set<nat>)
    requires BlockDominated(block, n, defined) && BlockConsistent(block, s) && ToGridArgs(s)
    requires defined - s.Keys <= defined'
    ensures BlockDominated(ConvertBlock(block, s), n + 6, defined')
    ensures BlockProvides(block) - s.Keys <= BlockProvides(ConvertBlock(block, s))
    decreases block
  {
    hide ToGridArgs, Dominated;
    if block != [] {
      var instr, rest := block[0], ConvertBlock(block[1..], s);
      if instr.GetProgramId? || instr.GetNumPrograms? {
        assert ConvertBlock(block, s) == rest;
        ConvertedBlockDominated(block[1..], s, n, defined + Provides(instr), defined');
      } else {
        ConvertedDominated(instr, s, n, defined, defined');
        var all := ConvertBlock(block, s);
        assert all[0] == ConvertInstr(instr, s)[0] && all[1..] == rest;
        ConvertedBlockDominated(block[1..], s, n, defined + Provides(instr), defined' + Provides(instr));
      }
    }
  }

  // ----- Whole modules -----

  lemma {:induction false} ConvertedBodyIsVerified(f: Func)
    requires !f.body.GridDriver? && BodyIsVerified(f)
    ensures BodyIsVerified(ConvertFunc(f))
  {
    hide BlockDominated, BlockSsa, ConvertBlock, BlockConsistent, ToGridArgs, BlockSpmdArgs;
    if f.body.Internal? {
      var block, s := f.body.block, BlockSpmdArgs(f.body.block);
      ConvertedFunc(f);
      BlockSsaConsistent(block, s);
      BlockSpmdArgsAreGridArgs(block);
      ConvertedBlockSsa(block, s);
      ConvertedBlockDominated(block, s, f.numParams, {}, {});
      AllAvailableForward(f.body.results, s, f.numParams, BlockProvides(block), BlockProvides(ConvertBlock(block, s)));
    }
  }

  lemma GridFuncIsVerified(kernel: Func)
    ensures BodyIsVerified(GridFunc(kernel))
  {
    var vs, params := GridLoop(kernel).callArgs, Params(kernel.numParams + 3);
    assert forall k | 3 <= k < |vs| :: vs[k] == params[k - 3];
  }

  lemma {:induction false} ConvertedBodiesAreVerified(m: seq<Func>)
    requires forall i | 0 <= i < |m| :: !m[i].body.GridDriver? && BodyIsVerified(m[i])
    ensures forall i | 0 <= i < |Convert(m)| :: BodyIsVerified(Convert(m)[i])
  {
    var r := Convert(m);
    forall i | 0 <= i < |r|
      ensures BodyIsVerified(r[i])
    {
      if i < |m| {
        ConvertedBodyIsVerified(m[i]);
      } else {
        var j := GridFuncOrigin(m, i - |m|);
        GridFuncIsVerified(m[j]);
      }
    }
  }

  /** The converted module is verified IR exactly if no callee is external and no grid function
      takes the name of a function. */
  lemma {:induction false} ConvertedModulePasses(m: seq<Func>)
    requires PassesVerifier(m) && forall i | 0 <= i < |m| :: !m[i].body.GridDriver?
    ensures PassesVerifier(Convert(m)) <==> CallsOnlyInternal(m) && NoNameClash(m)
  {
    hide BodyIsVerified, CallsMatch, CallsOnlyInternal, NoNameClash, Convert;
    ConvertedBodiesAreVerified(m);
    PassingIsValid(m);
    ConvertedModuleIsVerified(m);
    ConvertedNamesAreDistinct(m);
  }

  lemma PassingIsValid(m: seq<Func>)
    requires PassesVerifier(m) && forall i | 0 <= i < |m| :: !m[i].body.GridDriver?
    ensures ValidModule(m)
  {
    hide CallsMatch, BlockSsa, FuncDominated;
    assert forall i | 0 <= i < |m| :: BodyIsVerified(m[i]);
  }

  // ----- Modules that do not pass -----

  /** A kernel that calls an external function. */
  lemma ExternalCalleeDoesNotPass()
    ensures var m := [Func("f", 0, 0, External), Func("k", 0, 0, Internal([Call([], "f", [])], []))];
            PassesVerifier(m) && !PassesVerifier(Convert(m))
  {
    var f, k := Func("f", 0, 0, External), Func("k", 0, 0, Internal([Call([], "f", [])], []));
    var m := [f, k];
    var block := [Call([], "f", [])];
    assert block[1..] == [] && BlockCalls(block) == {("f", 0, 0)};
    assert CallsOf(m[0]) == {} && CallsOf(m[1]) == {("f", 0, 0)};
    assert Find(m, "f") == Done(f);
    assert CallMatches(m, ("f", 0, 0));
    assert BodyIsVerified(m[0]) && BodyIsVerified(m[1]);
    ConvertedModulePasses(m);
    assert !CallsOnlyInternal(m);
  }

  /** A kernel `k` next to a function `k_grid`. */
  lemma TakenGridNameDoesNotPass()
    ensures var m := [Func("k", 0, 0, Internal([], [])), Func("k_grid", 1, 0, External)];
            PassesVerifier(m) && CallsOnlyInternal(m) && !PassesVerifier(Convert(m))
  {
    var m := [Func("k", 0, 0, Internal([], [])), Func("k_grid", 1, 0, External)];
    assert CallsOf(m[0]) == {} && CallsOf(m[1]) == {};
    assert BodyIsVerified(m[0]) && BodyIsVerified(m[1]);
    assert "k" != "k_grid" && GridName("k") == "k_grid";
    ConvertedModulePasses(m);
    assert IsKernel(m[0]) && GridName(m[0].name) == m[1].name;
  }
}
