/** The pass that turns SPMD ops into function arguments. */
module SpmdConversion {
  import opened Sequences
  import opened SpmdPrograms

  /** The arguments that every function gets in front: three positions, three extents. */
  function GridArgs(): seq<Operand> {
    [Arg(0), Arg(1), Arg(2), Arg(3), Arg(4), Arg(5)]
  }

  // ----- Rewriting of operands -----

  function RewriteAll(os: seq<Operand>, f: Operand -> Operand): seq<Operand> {
    seq(|os|, k requires 0 <= k < |os| => f(os[k]))
  }

  /** Rewrites all operands, and puts `front` before the operands of every call. */
  function Rewrite(instr: Instr, f: Operand -> Operand, front: seq<Operand>): Instr
    decreases instr
  {
    match instr
    case GetProgramId(_, _) => instr
    case GetNumPrograms(_, _) => instr
    case Compute(id, g, operands) => Compute(id, g, RewriteAll(operands, f))
    case Load(id, address) => Load(id, f(address))
    case Store(address, stored) => Store(f(address), f(stored))
    case Call(ids, callee, operands) => Call(ids, callee, front + RewriteAll(operands, f))
    case If(condition, thenBlock, elseBlock) =>
      If(f(condition), RewriteBlock(thenBlock, f, front), RewriteBlock(elseBlock, f, front))
    case For(id, count, body) => For(id, f(count), RewriteBlock(body, f, front))
  }

  function RewriteBlock(block: seq<Instr>, f: Operand -> Operand, front: seq<Operand>): seq<Instr>
    decreases block
  {
    if block == [] then [] else [Rewrite(block[0], f, front)] + RewriteBlock(block[1..], f, front)
  }

  /** Old arguments are forwarded: they now come after the grid arguments. */
  function Shift(o: Operand): Operand {
    match o
    case Arg(i) => Arg(i + 6)
    case Res(_) => o
  }

  function Keep(o: Operand): Operand {
    o
  }

  /** Replaces the uses of the given results. */
  function Substitute(replacement: map<nat, Operand>): Operand -> Operand {
    (o: Operand) => if o.Res? && o.id in replacement then replacement[o.id] else o
  }

  /** The arguments that replace the results of the SPMD ops. */
  function SpmdArgs(instr: Instr): map<nat, Operand>
    decreases instr
  {
    match instr
    case GetProgramId(id, axis) => map[id := Arg(axis.Index())]
    case GetNumPrograms(id, axis) => map[id := Arg(axis.Index() + 3)]
    case If(_, thenBlock, elseBlock) => BlockSpmdArgs(thenBlock) + BlockSpmdArgs(elseBlock)
    case For(_, _, body) => BlockSpmdArgs(body)
    case _ => map[]
  }

  /** Positions come first, then extents, each in the order x, y, z. */
  lemma SpmdArgPositions(id: nat)
    ensures SpmdArgs(GetProgramId(id, X)) == map[id := Arg(0)] && SpmdArgs(GetNumPrograms(id, X)) == map[id := Arg(3)]
    ensures SpmdArgs(GetProgramId(id, Y)) == map[id := Arg(1)] && SpmdArgs(GetNumPrograms(id, Y)) == map[id := Arg(4)]
    ensures SpmdArgs(GetProgramId(id, Z)) == map[id := Arg(2)] && SpmdArgs(GetNumPrograms(id, Z)) == map[id := Arg(5)]
  {
  }

  function BlockSpmdArgs(block: seq<Instr>): map<nat, Operand>
    decreases block
  {
    if block == [] then map[] else SpmdArgs(block[0]) + BlockSpmdArgs(block[1..])
  }

  /** Erases the SPMD ops. */
  function Erase(instr: Instr): seq<Instr>
    decreases instr
  {
    match instr
    case GetProgramId(_, _) => []
    case GetNumPrograms(_, _) => []
    case If(condition, thenBlock, elseBlock) =>
      [If(condition, EraseBlock(thenBlock), EraseBlock(elseBlock))]
    case For(id, count, body) => [For(id, count, EraseBlock(body))]
    case _ => [instr]
  }

  function EraseBlock(block: seq<Instr>): seq<Instr>
    decreases block
  {
    if block == [] then [] else Erase(block[0]) + EraseBlock(block[1..])
  }

  // ----- The steps of the pass on one function -----

  function AddGridArguments(f: Func): Func {
    if f.body.Internal? then
      Func(f.name, f.numParams + 6, f.numResults,
           Internal(RewriteBlock(f.body.block, Shift, []), RewriteAll(f.body.results, Shift)))
    else f
  }

  function ExtendCalls(f: Func): Func {
    if f.body.Internal? then
      f.(body := Internal(RewriteBlock(f.body.block, Keep, GridArgs()), f.body.results))
    else f
  }

  function ReplaceSpmdOps(f: Func): Func {
    if f.body.Internal? then
      var s := Substitute(BlockSpmdArgs(f.body.block));
      f.(body := Internal(EraseBlock(RewriteBlock(f.body.block, s, [])), RewriteAll(f.body.results, s)))
    else f
  }

  /** A kernel is a function with a body and without results. */
  predicate IsKernel(f: Func) {
    f.body.Internal? && f.numResults == 0
  }

  function GridName(name: string): string {
    name + "_grid"
  }

  /** The loop over the grid: from zero to the first three arguments of the grid function, in steps
      of one. The kernel is called with the loop variables and all arguments of the grid function. */
  function GridLoop(kernel: Func): ParallelLoop {
    ParallelLoop(Triple(Constant(0), Constant(0), Constant(0)), Triple(Param(0), Param(1), Param(2)),
                 Triple(Constant(1), Constant(1), Constant(1)), kernel.name,
                 [Induction(X), Induction(Y), Induction(Z)] + Params(kernel.numParams + 3))
  }

  /** All arguments of a function with `n` parameters. */
  function Params(n: nat): (r: seq<LoopValue>)
    ensures |r| == n && forall k | 0 <= k < n :: r[k] == Param(k)
  {
    seq(n, k requires k >= 0 => Param(k))
  }

  /** The function that runs a kernel for a whole grid: the extents of the grid come first. */
  function GridFunc(kernel: Func): Func {
    Func(GridName(kernel.name), kernel.numParams + 3, 0, GridDriver(GridLoop(kernel)))
  }

  /** The kernels of a module, in order. */
  function Kernels(m: seq<Func>): seq<Func> {
    if m == [] then [] else (if IsKernel(m[0]) then [m[0]] else []) + Kernels(m[1..])
  }

  function ConvertFunc(f: Func): Func {
    ReplaceSpmdOps(ExtendCalls(AddGridArguments(f)))
  }

  function ConvertFuncs(m: seq<Func>): (r: seq<Func>)
    ensures |r| == |m|
  {
    seq(|m|, i requires 0 <= i < |m| => ConvertFunc(m[i]))
  }

  function GridFuncs(m: seq<Func>): seq<Func> {
    if m == [] then []
    else (if IsKernel(m[0]) then [GridFunc(m[0])] else []) + GridFuncs(m[1..])
  }

  /** The converted module. */
  function Convert(m: seq<Func>): seq<Func> {
    ConvertFuncs(m) + GridFuncs(m)
  }

  lemma {:induction false} GridFuncsSnoc(m: seq<Func>, f: Func)
    ensures GridFuncs(m + [f]) == GridFuncs(m) + (if IsKernel(f) then [GridFunc(f)] else [])
    decreases m
  {
    if m == [] {
      assert m + [f] == [f];
    } else {
      GridFuncsSnoc(m[1..], f);
      assert (m + [f])[1..] == m[1..] + [f];
    }
  }

  lemma NoKernels()
    ensures Kernels([]) == []
  {
  }

  lemma {:induction false} KernelsSnoc(m: seq<Func>, f: Func)
    ensures Kernels(m + [f]) == Kernels(m) + (if IsKernel(f) then [f] else [])
    decreases m
  {
    if m == [] {
      assert m + [f] == [f];
    } else {
      KernelsSnoc(m[1..], f);
      assert (m + [f])[1..] == m[1..] + [f];
      ConcatAssociates(if IsKernel(m[0]) then [m[0]] else [], Kernels(m[1..]), if IsKernel(f) then [f] else []);
    }
  }

  /** The grid functions of a module are those of its kernels. */
  lemma {:induction false} GridFuncsOfKernels(m: seq<Func>)
    ensures GridFuncs(Kernels(m)) == GridFuncs(m)
    ensures forall k | 0 <= k < |Kernels(m)| :: IsKernel(Kernels(m)[k])
    decreases m
  {
    if m != [] {
      GridFuncsOfKernels(m[1..]);
      if IsKernel(m[0]) {
        assert Kernels(m)[1..] == Kernels(m[1..]);
      } else {
        assert Kernels(m) == Kernels(m[1..]);
      }
    }
  }

  /** Adds grid arguments to all functions and remembers the kernels. */
  method AddArguments(m: seq<Func>) returns (funcs: seq<Func>, kernelFuncs: seq<Func>)
    requires forall i | 0 <= i < |m| :: !m[i].body.GridDriver?
    ensures |funcs| == |m| && forall k | 0 <= k < |m| :: funcs[k] == AddGridArguments(m[k])
    ensures kernelFuncs == Kernels(m)
    ensures IsSelection((f: Func) => f.body.Internal? && f.numResults == 0, m, kernelFuncs)
  {
    KernelsAreSelected(m);
    hide Kernels, IsSelection;
    NoKernels();
    funcs, kernelFuncs := [], [];
    assert m[..0] == [];
    for i := 0 to |m|
      invariant |funcs| == i && forall k | 0 <= k < i :: funcs[k] == AddGridArguments(m[k])
      invariant kernelFuncs == Kernels(m[..i])
    {
      var op := m[i];
      assert m[..i + 1] == m[..i] + [op];
      KernelsSnoc(m[..i], op);
      if !op.body.External? {
        if op.numResults == 0 {
          kernelFuncs := kernelFuncs + [op];
        }
        op := AddGridArguments(op);
      }
      funcs := funcs + [op];
    }
    assert m[..|m|] == m;
  }

  /** Builds a grid function for each kernel. */
  method BuildGridFuncs(kernelFuncs: seq<Func>) returns (gridFuncs: seq<Func>)
    requires forall k | 0 <= k < |kernelFuncs| :: IsKernel(kernelFuncs[k])
    ensures gridFuncs == GridFuncs(kernelFuncs)
  {
    gridFuncs := [];
    for i := 0 to |kernelFuncs|
      invariant gridFuncs == GridFuncs(kernelFuncs[..i])
    {
      assert kernelFuncs[..i + 1] == kernelFuncs[..i] + [kernelFuncs[i]];
      GridFuncsSnoc(kernelFuncs[..i], kernelFuncs[i]);
      gridFuncs := gridFuncs + [GridFunc(kernelFuncs[i])];
    }
    assert kernelFuncs[..|kernelFuncs|] == kernelFuncs;
  }

  /** A converted function: with a body, it has six more parameters. */
  ghost predicate KeepsSignature(f: Func, f': Func) {
    && f'.name == f.name && f'.numResults == f.numResults
    && f'.numParams == f.numParams + if f.body.Internal? then 6 else 0
  }

  ghost predicate IsGridFuncOf(kernel: Func, f: Func) {
    f.name == kernel.name + "_grid" && f.numParams == kernel.numParams + 3 && f.numResults == 0
  }

  /** What the pass makes of a module, function by function: all functions keep their places, names
      and results; `at` has the positions of the functions with a body and without results, and for
      each of them, in order, there is a new function that has three more parameters. */
  ghost predicate AddsGridFuncs(m: seq<Func>, r: seq<Func>, at: seq<nat>) {
    && |r| == |m| + |at| && Picks(at, (f: Func) => f.body.Internal? && f.numResults == 0, m)
    && (forall i | 0 <= i < |m| :: KeepsSignature(m[i], r[i]))
    && (forall k | 0 <= k < |at| :: at[k] < |m| && IsGridFuncOf(m[at[k]], r[|m| + k]))
  }

  lemma ConvertKeepsSignature(f: Func)
    requires !f.body.GridDriver?
    ensures KeepsSignature(f, ConvertFunc(f))
  {
  }

  lemma GridFuncIsGridFunc(kernel: Func)
    ensures IsGridFuncOf(kernel, GridFunc(kernel))
  {
  }

  /** There is a new function exactly for each function with a body and without results. */
  lemma {:induction false} ConvertAddsGridFuncs(m: seq<Func>)
    requires forall i | 0 <= i < |m| :: !m[i].body.GridDriver?
    ensures exists at :: AddsGridFuncs(m, Convert(m), at)
  {
    hide Picks, ConvertFunc, GridFunc, KeepsSignature, IsGridFuncOf, Kernels, GridFuncs;
    KernelsAreSelected(m);
    var at :| Picks(at, (f: Func) => f.body.Internal? && f.numResults == 0, m) && ReadAt(at, m, Kernels(m));
    GridFuncsAt(m);
    var r := Convert(m);
    forall i | 0 <= i < |m|
      ensures KeepsSignature(m[i], r[i])
    {
      ConvertKeepsSignature(m[i]);
    }
    forall k | 0 <= k < |at|
      ensures at[k] < |m| && IsGridFuncOf(m[at[k]], r[|m| + k])
    {
      assert r[|m| + k] == GridFuncs(m)[k] && Kernels(m)[k] == m[at[k]];
      GridFuncIsGridFunc(m[at[k]]);
    }
    assert AddsGridFuncs(m, r, at);
  }

  lemma {:induction false} KernelsAreSelected(m: seq<Func>)
    ensures IsSelection((f: Func) => f.body.Internal? && f.numResults == 0, m, Kernels(m))
    decreases m
  {
    var p := (f: Func) => f.body.Internal? && f.numResults == 0;
    if m == [] {
      NothingSelected(p);
    } else {
      KernelsAreSelected(m[1..]);
      SelectionCons(p, m, Kernels(m[1..]));
    }
  }

  lemma {:induction false} GridFuncsAt(m: seq<Func>)
    ensures |GridFuncs(m)| == |Kernels(m)|
    ensures forall k | 0 <= k < |Kernels(m)| :: GridFuncs(m)[k] == GridFunc(Kernels(m)[k])
    decreases m
  {
    if m != [] {
      GridFuncsAt(m[1..]);
    }
  }

  /** The pass, phase by phase. */
  method RunOnOperation(m: seq<Func>) returns (r: seq<Func>)
    requires forall i | 0 <= i < |m| :: !m[i].body.GridDriver?
    ensures r == Convert(m)
    ensures exists at :: AddsGridFuncs(m, r, at)
  {
    hide AddsGridFuncs, AddGridArguments, ExtendCalls, ReplaceSpmdOps, Kernels, GridFuncs, IsSelection;
    var funcs, kernelFuncs := AddArguments(m);
    GridFuncsOfKernels(m);
    for i := 0 to |funcs|
      invariant |funcs| == |m|
      invariant forall k | 0 <= k < i :: funcs[k] == ExtendCalls(AddGridArguments(m[k]))
      invariant forall k | i <= k < |m| :: funcs[k] == AddGridArguments(m[k])
    {
      funcs := funcs[i := ExtendCalls(funcs[i])];
    }
    var gridFuncs := BuildGridFuncs(kernelFuncs);
    for i := 0 to |funcs|
      invariant |funcs| == |m|
      invariant forall k | 0 <= k < i :: funcs[k] == ConvertFunc(m[k])
      invariant forall k | i <= k < |m| :: funcs[k] == ExtendCalls(AddGridArguments(m[k]))
    {
      funcs := funcs[i := ReplaceSpmdOps(funcs[i])];
    }
    assert funcs == ConvertFuncs(m);
    r := funcs + gridFuncs;
    ConvertAddsGridFuncs(m);
  }

  // ----- The phases together -----

  /** What the phases together make of an operand. */
  function Forward(replacement: map<nat, Operand>, o: Operand): Operand {
    match o
    case Arg(i) => Arg(i + 6)
    case Res(k) => if k in replacement then replacement[k] else o
  }

  function ForwardAll(replacement: map<nat, Operand>, os: seq<Operand>): seq<Operand> {
    seq(|os|, k requires 0 <= k < |os| => Forward(replacement, os[k]))
  }

  /** What the phases together make of an instruction. */
  function ConvertInstr(instr: Instr, s: map<nat, Operand>): seq<Instr>
    decreases instr
  {
    match instr
    case GetProgramId(_, _) => []
    case GetNumPrograms(_, _) => []
    case Compute(id, g, operands) => [Compute(id, g, ForwardAll(s, operands))]
    case Load(id, address) => [Load(id, Forward(s, address))]
    case Store(address, stored) => [Store(Forward(s, address), Forward(s, stored))]
    case Call(ids, callee, operands) => [Call(ids, callee, GridArgs() + ForwardAll(s, operands))]
    case If(condition, thenBlock, elseBlock) =>
      [If(Forward(s, condition), ConvertBlock(thenBlock, s), ConvertBlock(elseBlock, s))]
    case For(id, count, body) => [For(id, Forward(s, count), ConvertBlock(body, s))]
  }

  function ConvertBlock(block: seq<Instr>, s: map<nat, Operand>): seq<Instr>
    decreases block
  {
    if block == [] then [] else ConvertInstr(block[0], s) + ConvertBlock(block[1..], s)
  }

  function Phases(instr: Instr, s: map<nat, Operand>): seq<Instr> {
    Erase(Rewrite(Rewrite(Rewrite(instr, Shift, []), Keep, GridArgs()), Substitute(s), []))
  }

  function PhasesBlock(block: seq<Instr>, s: map<nat, Operand>): seq<Instr> {
    EraseBlock(RewriteBlock(RewriteBlock(RewriteBlock(block, Shift, []), Keep, GridArgs()), Substitute(s), []))
  }

  lemma {:induction false} PhasesConvert(instr: Instr, s: map<nat, Operand>)
    ensures Phases(instr, s) == ConvertInstr(instr, s)
    decreases instr
  {
    match instr
    case GetProgramId(_, _) =>
    case GetNumPrograms(_, _) =>
    case Compute(_, _, operands) =>
      OperandPhases(operands, s);
    case Load(_, _) =>
    case Store(_, _) =>
    case Call(ids, callee, operands) =>
      CallPhases(operands, s);
    case If(_, thenBlock, elseBlock) =>
      PhasesConvertBlock(thenBlock, s);
      PhasesConvertBlock(elseBlock, s);
    case For(_, _, body) =>
      PhasesConvertBlock(body, s);
  }

  lemma ForwardPhases(o: Operand, s: map<nat, Operand>)
    ensures Substitute(s)(Keep(Shift(o))) == Forward(s, o) == Substitute(s)(Shift(o))
  {
  }

  lemma OperandPhases(os: seq<Operand>, s: map<nat, Operand>)
    ensures RewriteAll(RewriteAll(RewriteAll(os, Shift), Keep), Substitute(s)) == ForwardAll(s, os)
    ensures RewriteAll(RewriteAll(os, Shift), Substitute(s)) == ForwardAll(s, os)
  {
    forall k | 0 <= k < |os|
      ensures Substitute(s)(Keep(Shift(os[k]))) == Forward(s, os[k]) == Substitute(s)(Shift(os[k]))
    {
      ForwardPhases(os[k], s);
    }
    assert |RewriteAll(os, Shift)| == |RewriteAll(RewriteAll(os, Shift), Keep)| == |os|;
  }

  lemma CallPhases(os: seq<Operand>, s: map<nat, Operand>)
    ensures [] + RewriteAll(GridArgs() + RewriteAll([] + RewriteAll(os, Shift), Keep), Substitute(s))
         == GridArgs() + ForwardAll(s, os)
  {
    OperandPhases(os, s);
    var inner := RewriteAll(os, Shift);
    assert [] + inner == inner;
    var kept := RewriteAll(inner, Keep);
    RewriteAllAppend(GridArgs(), kept, Substitute(s));
    assert RewriteAll(GridArgs(), Substitute(s)) == GridArgs();
  }

  lemma RewriteAllAppend(a: seq<Operand>, b: seq<Operand>, f: Operand -> Operand)
    ensures RewriteAll(a + b, f) == RewriteAll(a, f) + RewriteAll(b, f)
  {
  }

  lemma {:induction false} PhasesConvertBlock(block: seq<Instr>, s: map<nat, Operand>)
    ensures PhasesBlock(block, s) == ConvertBlock(block, s)
    decreases block
  {
    if block != [] {
      var a := RewriteBlock(block, Shift, []);
      var b := RewriteBlock(a, Keep, GridArgs());
      var c := RewriteBlock(b, Substitute(s), []);
      assert a[1..] == RewriteBlock(block[1..], Shift, []);
      assert b[1..] == RewriteBlock(a[1..], Keep, GridArgs());
      assert c[1..] == RewriteBlock(b[1..], Substitute(s), []);
      PhasesConvert(block[0], s);
      PhasesConvertBlock(block[1..], s);
    }
  }

  /** Rewriting operands does not change the SPMD ops. */
  lemma {:induction false} SpmdArgsKept(instr: Instr, f: Operand -> Operand, front: seq<Operand>)
    ensures SpmdArgs(Rewrite(instr, f, front)) == SpmdArgs(instr)
    decreases instr
  {
    match instr
    case If(_, thenBlock, elseBlock) =>
      BlockSpmdArgsKept(thenBlock, f, front);
      BlockSpmdArgsKept(elseBlock, f, front);
    case For(_, _, body) =>
      BlockSpmdArgsKept(body, f, front);
    case _ =>
  }

  lemma {:induction false} BlockSpmdArgsKept(block: seq<Instr>, f: Operand -> Operand, front: seq<Operand>)
    ensures BlockSpmdArgs(RewriteBlock(block, f, front)) == BlockSpmdArgs(block)
    decreases block
  {
    if block != [] {
      var r := RewriteBlock(block, f, front);
      assert r[1..] == RewriteBlock(block[1..], f, front);
      SpmdArgsKept(block[0], f, front);
      BlockSpmdArgsKept(block[1..], f, front);
    }
  }

  /** A converted function in one step. */
  lemma {:induction false} ConvertedFunc(f: Func)
    requires f.body.Internal?
    ensures var s := BlockSpmdArgs(f.body.block);
            ConvertFunc(f) == Func(f.name, f.numParams + 6, f.numResults,
                                   Internal(ConvertBlock(f.body.block, s), ForwardAll(s, f.body.results)))
  {
    var block := f.body.block;
    var s := BlockSpmdArgs(block);
    BlockSpmdArgsKept(block, Shift, []);
    BlockSpmdArgsKept(RewriteBlock(block, Shift, []), Keep, GridArgs());
    PhasesConvertBlock(block, s);
    OperandPhases(f.body.results, s);
  }
}
