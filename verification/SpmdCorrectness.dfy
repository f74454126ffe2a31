/** The conversion of SPMD ops to function arguments preserves the meaning of modules. */
module SpmdCorrectness {
  import Cells
  import opened SpmdPrograms
  import opened SpmdConversion

  /** The values of the grid arguments for a position in a grid. */
  function GridValues(g: Grid): seq<int> {
    [g.programId.x, g.programId.y, g.programId.z, g.numPrograms.x, g.numPrograms.y, g.numPrograms.z]
  }

  // ----- SSA form makes the replacement consistent -----

  /** The replacement knows the right argument for every SPMD op, and touches nothing else. */
  predicate Consistent(instr: Instr, s: map<nat, Operand>)
    decreases instr
  {
    match instr
    case GetProgramId(id, axis) => id in s && s[id] == Arg(axis.Index())
    case GetNumPrograms(id, axis) => id in s && s[id] == Arg(axis.Index() + 3)
    case Compute(id, _, _) => id !in s
    case Load(id, _) => id !in s
    case Store(_, _) => true
    case Call(ids, _, _) => forall id | id in ids :: id !in s
    case If(_, thenBlock, elseBlock) => BlockConsistent(thenBlock, s) && BlockConsistent(elseBlock, s)
    case For(id, _, body) => id !in s && BlockConsistent(body, s)
  }

  predicate BlockConsistent(block: seq<Instr>, s: map<nat, Operand>)
    decreases block
  {
    block != [] ==> Consistent(block[0], s) && BlockConsistent(block[1..], s)
  }

  /** Two replacements that do the same to the given ids. */
  ghost predicate AgreeOn(ids: set<nat>, s: map<nat, Operand>, t: map<nat, Operand>) {
    forall k | k in ids :: (k in s <==> k in t) && (k in s ==> s[k] == t[k])
  }

  lemma {:induction false} SpmdArgsAreDefs(instr: Instr)
    ensures SpmdArgs(instr).Keys <= Defs(instr)
    decreases instr
  {
    match instr
    case If(_, thenBlock, elseBlock) =>
      BlockSpmdArgsAreDefs(thenBlock);
      BlockSpmdArgsAreDefs(elseBlock);
    case For(_, _, body) =>
      BlockSpmdArgsAreDefs(body);
    case _ =>
  }

  lemma {:induction false} BlockSpmdArgsAreDefs(block: seq<Instr>)
    ensures BlockSpmdArgs(block).Keys <= BlockDefs(block)
    decreases block
  {
    if block != [] {
      SpmdArgsAreDefs(block[0]);
      BlockSpmdArgsAreDefs(block[1..]);
    }
  }

  lemma {:induction false} SsaConsistent(instr: Instr, s: map<nat, Operand>)
    requires Ssa(instr) && AgreeOn(Defs(instr), SpmdArgs(instr), s)
    ensures Consistent(instr, s)
    decreases instr
  {
    match instr
    case If(_, thenBlock, elseBlock) =>
      BlockSpmdArgsAreDefs(thenBlock);
      BlockSpmdArgsAreDefs(elseBlock);
      BlockSsaConsistent(thenBlock, s);
      BlockSsaConsistent(elseBlock, s);
    case For(_, _, body) =>
      BlockSpmdArgsAreDefs(body);
      BlockSsaConsistent(body, s);
    case _ =>
  }

  /** In SSA form, the arguments collected from a block are a consistent replacement for it. */
  lemma {:induction false} BlockSsaConsistent(block: seq<Instr>, s: map<nat, Operand>)
    requires BlockSsa(block) && AgreeOn(BlockDefs(block), BlockSpmdArgs(block), s)
    ensures BlockConsistent(block, s)
    decreases block
  {
    if block != [] {
      SpmdArgsAreDefs(block[0]);
      BlockSpmdArgsAreDefs(block[1..]);
      SsaConsistent(block[0], s);
      BlockSsaConsistent(block[1..], s);
    }
  }

  // ----- Simulation -----

  /** Every value known before is known after: as a grid argument if it came from an SPMD op,
      under its own id otherwise. */
  ghost predicate Related(env: map<nat, int>, env': map<nat, int>, s: map<nat, Operand>, g: Grid) {
    forall k | k in env ::
      if k in s then s[k].Arg? && s[k].index < 6 && env[k] == GridValues(g)[s[k].index]
      else k in env' && env'[k] == env[k]
  }

  lemma EvalForward(o: Operand, s: map<nat, Operand>, args: seq<int>, env: map<nat, int>,
                    env': map<nat, int>, g: Grid)
    requires Related(env, env', s, g) && Eval(o, args, env).Done?
    ensures Eval(Forward(s, o), GridValues(g) + args, env') == Eval(o, args, env)
  {
  }

  lemma {:induction false} EvalForwardAll(os: seq<Operand>, s: map<nat, Operand>, args: seq<int>,
                                          env: map<nat, int>, env': map<nat, int>, g: Grid)
    requires Related(env, env', s, g) && EvalAll(os, args, env).Done?
    ensures EvalAll(ForwardAll(s, os), GridValues(g) + args, env') == EvalAll(os, args, env)
    decreases os
  {
    if os != [] {
      assert ForwardAll(s, os)[1..] == ForwardAll(s, os[1..]);
      EvalForward(os[0], s, args, env, env', g);
      EvalForwardAll(os[1..], s, args, env, env', g);
    }
  }

  lemma {:induction false} EvalAllAppend(a: seq<Operand>, b: seq<Operand>, args: seq<int>, env: map<nat, int>)
    requires EvalAll(a, args, env).Done? && EvalAll(b, args, env).Done?
    ensures EvalAll(a + b, args, env) == Done(EvalAll(a, args, env).value + EvalAll(b, args, env).value)
    decreases a
  {
    if a == [] {
      assert a + b == b;
      assert [] + EvalAll(b, args, env).value == EvalAll(b, args, env).value;
    } else {
      assert (a + b)[1..] == a[1..] + b;
      EvalAllAppend(a[1..], b, args, env);
      var v, vs, ws := Eval(a[0], args, env).value, EvalAll(a[1..], args, env).value, EvalAll(b, args, env).value;
      assert [v] + (vs + ws) == ([v] + vs) + ws;
    }
  }

  lemma {:induction false} EvalArgs(from: nat, n: nat, args: seq<int>, env: map<nat, int>, os: seq<Operand>)
    requires from + n <= |args| && |os| == n && forall k | 0 <= k < n :: os[k] == Arg(from + k)
    ensures EvalAll(os, args, env) == Done(args[from..from + n])
    decreases n
  {
    if n > 0 {
      EvalArgs(from + 1, n - 1, args, env, os[1..]);
      assert args[from..from + n] == [args[from]] + args[from + 1..from + n];
    }
  }

  /** The operands of a converted call: the grid arguments, then the old operands. */
  lemma {:induction false} EvalCallOperands(os: seq<Operand>, s: map<nat, Operand>, args: seq<int>,
                                            env: map<nat, int>, env': map<nat, int>, g: Grid)
    requires Related(env, env', s, g) && EvalAll(os, args, env).Done?
    ensures EvalAll(GridArgs() + ForwardAll(s, os), GridValues(g) + args, env')
         == Done(GridValues(g) + EvalAll(os, args, env).value)
  {
    EvalForwardAll(os, s, args, env, env', g);
    EvalArgs(0, 6, GridValues(g) + args, env', GridArgs());
    assert (GridValues(g) + args)[0..6] == GridValues(g);
    EvalAllAppend(GridArgs(), ForwardAll(s, os), GridValues(g) + args, env');
  }

  lemma DefineRelated(env: map<nat, int>, env': map<nat, int>, id: nat, v: int, s: map<nat, Operand>, g: Grid)
    requires Related(env, env', s, g) && id !in s
    ensures Related(env[id := v], env'[id := v], s, g)
  {
  }

  lemma {:induction false} BindRelated(env: map<nat, int>, env': map<nat, int>, ids: seq<nat>, vs: seq<int>,
                                       s: map<nat, Operand>, g: Grid)
    requires Related(env, env', s, g) && |ids| == |vs| && forall id | id in ids :: id !in s
    ensures Related(Bind(env, ids, vs), Bind(env', ids, vs), s, g)
    decreases ids
  {
    if ids != [] {
      BindRelated(env[ids[0] := vs[0]], env'[ids[0] := vs[0]], ids[1..], vs[1..], s, g);
    }
  }

  /** The call graph leads only to functions with a body. */
  ghost predicate CallsInternal(m: seq<Func>, calls: set<(string, nat, nat)>) {
    forall c | c in calls :: var f := Find(m, c.0); f.Done? && f.value.body.Internal?
  }

  ghost predicate Convertible(m: seq<Func>) {
    && ValidModule(m)
    && CallsOnlyInternal(m)
  }

  /** Runs with environments agree, unless the original run is faulty. */
  ghost predicate SameRun(r: Outcome<(map<nat, int>, Memory)>, r': Outcome<(map<nat, int>, Memory)>,
                          s: map<nat, Operand>, g: Grid) {
    match r
    case Fault => true
    case Timeout => r'.Timeout?
    case Done((env, mem)) => r'.Done? && r'.value.1 == mem && Related(env, r'.value.0, s, g)
  }

  ghost predicate Same<T>(r: Outcome<T>, r': Outcome<T>) {
    r.Fault? || r == r'
  }

  lemma {:induction false} FindIndex(m: seq<Func>, name: string) returns (i: nat)
    requires Find(m, name).Done?
    ensures i < |m| && m[i].name == name && Find(m, name).value == m[i]
    decreases m
  {
    if m[0].name == name {
      i := 0;
    } else {
      i := FindIndex(m[1..], name);
      i := i + 1;
    }
  }

  /** The converted module has the converted function under the old name. */
  lemma {:induction false} FindConverted(m: seq<Func>, rest: seq<Func>, name: string)
    requires Find(m, name).Done?
    ensures Find(ConvertFuncs(m) + rest, name) == Done(ConvertFunc(Find(m, name).value))
    decreases m
  {
    var r := ConvertFuncs(m) + rest;
    assert r[0] == ConvertFunc(m[0]) && r[0].name == m[0].name;
    if m[0].name != name {
      assert r[1..] == ConvertFuncs(m[1..]) + rest;
      FindConverted(m[1..], rest, name);
    }
  }

  /** A function runs the same with its position in the grid passed as arguments, whatever the
      ambient position is. */
  lemma {:induction false} FuncPreserved(w: World, m: seq<Func>, name: string, args: seq<int>, mem: Memory,
                                         g: Grid, g': Grid, fuel: nat)
    requires Convertible(m)
    requires Find(m, name).Done? && Find(m, name).value.body.Internal?
    ensures Same(RunFunc(w, m, name, args, mem, g, fuel),
                 RunFunc(w, Convert(m), name, GridValues(g) + args, mem, g', fuel))
    decreases fuel, 0, 0
  {
    hide RunBlock, ConvertBlock, BlockConsistent, CallsInternal, BlockSpmdArgs;
    if fuel > 0 {
      var i := FindIndex(m, name);
      var f := m[i];
      FindConverted(m, GridFuncs(m), name);
      ConvertedFunc(f);
      var s := BlockSpmdArgs(f.body.block);
      BlockSsaConsistent(f.body.block, s);
      InternalCalls(m, i);
      if |args| == f.numParams {
        var r := RunBlock(w, m, f.body.block, args, map[], mem, g, fuel - 1);
        BlockPreserved(w, m, f.body.block, s, args, map[], map[], mem, g, g', fuel - 1);
        if r.Done? && EvalAll(f.body.results, args, r.value.0).Done? {
          var r' := RunBlock(w, Convert(m), ConvertBlock(f.body.block, s), GridValues(g) + args, map[],
                             mem, g', fuel - 1);
          EvalForwardAll(f.body.results, s, args, r.value.0, r'.value.0, g);
        }
      }
    }
  }

  lemma InternalCalls(m: seq<Func>, i: nat)
    requires Convertible(m) && i < |m| && m[i].body.Internal?
    ensures CallsInternal(m, BlockCalls(m[i].body.block))
  {
    forall c | c in BlockCalls(m[i].body.block)
      ensures Find(m, c.0).Done? && Find(m, c.0).value.body.Internal?
    {
      assert c in CallsOf(m[i]);
      var j := FindIndex(m, c.0);
    }
  }

  lemma {:induction false} BlockPreserved(w: World, m: seq<Func>, block: seq<Instr>, s: map<nat, Operand>,
                                          args: seq<int>, env: map<nat, int>, env': map<nat, int>,
                                          mem: Memory, g: Grid, g': Grid, fuel: nat)
    requires Convertible(m) && CallsInternal(m, BlockCalls(block))
    requires BlockConsistent(block, s) && Related(env, env', s, g)
    ensures SameRun(RunBlock(w, m, block, args, env, mem, g, fuel),
                    RunBlock(w, Convert(m), ConvertBlock(block, s), GridValues(g) + args, env', mem, g', fuel),
                    s, g)
    decreases fuel, 1, block, 0
  {
    hide Related, Convertible, Convert, RunInstr;
    if block != [] {
      var instr, rest := block[0], block[1..];
      var r := RunInstr(w, m, instr, args, env, mem, g, fuel);
      var instr', rest' := ConvertInstr(instr, s), ConvertBlock(rest, s);
      if instr.GetProgramId? || instr.GetNumPrograms? {
        assert instr' + rest' == rest';
        SpmdOpRelated(w, m, instr, s, args, env, env', mem, g, fuel);
        BlockPreserved(w, m, rest, s, args, r.value.0, env', mem, g, g', fuel);
      } else {
        InstrPreserved(w, m, instr, s, args, env, env', mem, g, g', fuel);
        assert (instr' + rest')[0] == instr'[0] && (instr' + rest')[1..] == rest';
        var r' := RunInstr(w, Convert(m), instr'[0], GridValues(g) + args, env', mem, g', fuel);
        if r.Done? {
          BlockPreserved(w, m, rest, s, args, r.value.0, r'.value.0, r.value.1, g, g', fuel);
        }
      }
    }
  }

  /** The result of an SPMD op is found in the grid arguments. */
  lemma SpmdOpRelated(w: World, m: seq<Func>, instr: Instr, s: map<nat, Operand>, args: seq<int>,
                      env: map<nat, int>, env': map<nat, int>, mem: Memory, g: Grid, fuel: nat)
    requires instr.GetProgramId? || instr.GetNumPrograms?
    requires Consistent(instr, s) && Related(env, env', s, g)
    ensures var r := RunInstr(w, m, instr, args, env, mem, g, fuel);
            r.Done? && r.value.1 == mem && Related(r.value.0, env', s, g)
  {
  }

  lemma {:induction false} InstrPreserved(w: World, m: seq<Func>, instr: Instr, s: map<nat, Operand>,
                                          args: seq<int>, env: map<nat, int>, env': map<nat, int>,
                                          mem: Memory, g: Grid, g': Grid, fuel: nat)
    requires Convertible(m) && CallsInternal(m, Calls(instr))
    requires Consistent(instr, s) && Related(env, env', s, g)
    requires !instr.GetProgramId? && !instr.GetNumPrograms?
    ensures |ConvertInstr(instr, s)| == 1
    ensures SameRun(RunInstr(w, m, instr, args, env, mem, g, fuel),
                    RunInstr(w, Convert(m), ConvertInstr(instr, s)[0], GridValues(g) + args, env', mem, g', fuel),
                    s, g)
    decreases fuel, 1, instr, 0
  {
    hide Related, SameRun, RunInstr, Convertible, EvalAll, Convert, ForwardAll, Forward;
    match instr
    case Compute(id, f, operands) =>
      ComputePreserved(w, m, id, f, operands, s, args, env, env', mem, g, g', fuel);
    case Load(id, address) =>
      LoadPreserved(w, m, id, address, s, args, env, env', mem, g, g', fuel);
    case Store(address, stored) =>
      StorePreserved(w, m, address, stored, s, args, env, env', mem, g, g', fuel);
    case Call(ids, callee, operands) =>
      CallPreserved(w, m, ids, callee, operands, s, args, env, env', mem, g, g', fuel);
    case If(condition, thenBlock, elseBlock) =>
      BlockPreserved(w, m, thenBlock, s, args, env, env', mem, g, g', fuel);
      BlockPreserved(w, m, elseBlock, s, args, env, env', mem, g, g', fuel);
      IfPreserved(w, m, condition, thenBlock, elseBlock, s, args, env, env', mem, g, g', fuel);
    case For(id, count, body) =>
      forall n: nat
        ensures Same(RunFor(w, m, id, body, 0, n, args, env, mem, g, fuel),
                     RunFor(w, Convert(m), id, ConvertBlock(body, s), 0, n, GridValues(g) + args, env', mem, g', fuel))
      {
        ForPreserved(w, m, id, body, 0, n, s, args, env, env', mem, g, g', fuel);
      }
      LoopPreserved(w, m, id, count, body, s, args, env, env', mem, g, g', fuel);
  }

  lemma LoadPreserved(w: World, m: seq<Func>, id: nat, address: Operand, s: map<nat, Operand>, args: seq<int>,
                      env: map<nat, int>, env': map<nat, int>, mem: Memory, g: Grid, g': Grid, fuel: nat)
    requires Related(env, env', s, g) && id !in s
    ensures SameRun(RunInstr(w, m, Load(id, address), args, env, mem, g, fuel),
                    RunInstr(w, Convert(m), Load(id, Forward(s, address)), GridValues(g) + args, env', mem, g', fuel),
                    s, g)
  {
    hide Related;
    if Eval(address, args, env).Done? {
      EvalForward(address, s, args, env, env', g);
      DefineRelated(env, env', id, Cells.Read(mem.cells, Eval(address, args, env).value), s, g);
    }
  }

  lemma StorePreserved(w: World, m: seq<Func>, address: Operand, stored: Operand, s: map<nat, Operand>,
                       args: seq<int>, env: map<nat, int>, env': map<nat, int>, mem: Memory, g: Grid, g': Grid,
                       fuel: nat)
    requires Related(env, env', s, g)
    ensures SameRun(RunInstr(w, m, Store(address, stored), args, env, mem, g, fuel),
                    RunInstr(w, Convert(m), Store(Forward(s, address), Forward(s, stored)), GridValues(g) + args,
                             env', mem, g', fuel),
                    s, g)
  {
    hide Related;
    if Eval(address, args, env).Done? && Eval(stored, args, env).Done? {
      EvalForward(address, s, args, env, env', g);
      EvalForward(stored, s, args, env, env', g);
    }
  }

  lemma IfPreserved(w: World, m: seq<Func>, condition: Operand, thenBlock: seq<Instr>, elseBlock: seq<Instr>,
                    s: map<nat, Operand>, args: seq<int>, env: map<nat, int>, env': map<nat, int>, mem: Memory,
                    g: Grid, g': Grid, fuel: nat)
    requires Related(env, env', s, g)
    requires forall block | block == thenBlock || block == elseBlock ::
               SameRun(RunBlock(w, m, block, args, env, mem, g, fuel),
                       RunBlock(w, Convert(m), ConvertBlock(block, s), GridValues(g) + args, env', mem, g', fuel), s, g)
    ensures SameRun(RunInstr(w, m, If(condition, thenBlock, elseBlock), args, env, mem, g, fuel),
                    RunInstr(w, Convert(m),
                             If(Forward(s, condition), ConvertBlock(thenBlock, s), ConvertBlock(elseBlock, s)),
                             GridValues(g) + args, env', mem, g', fuel),
                    s, g)
  {
    hide Related, RunBlock, ConvertBlock;
    if Eval(condition, args, env).Done? {
      EvalForward(condition, s, args, env, env', g);
    }
  }

  lemma LoopPreserved(w: World, m: seq<Func>, id: nat, count: Operand, body: seq<Instr>, s: map<nat, Operand>,
                      args: seq<int>, env: map<nat, int>, env': map<nat, int>, mem: Memory, g: Grid, g': Grid,
                      fuel: nat)
    requires Related(env, env', s, g)
    requires forall n: nat ::
               Same(RunFor(w, m, id, body, 0, n, args, env, mem, g, fuel),
                    RunFor(w, Convert(m), id, ConvertBlock(body, s), 0, n, GridValues(g) + args, env', mem, g', fuel))
    ensures SameRun(RunInstr(w, m, For(id, count, body), args, env, mem, g, fuel),
                    RunInstr(w, Convert(m), For(id, Forward(s, count), ConvertBlock(body, s)), GridValues(g) + args,
                             env', mem, g', fuel),
                    s, g)
  {
    hide Related, RunFor, ConvertBlock;
    if Eval(count, args, env).Done? {
      EvalForward(count, s, args, env, env', g);
    }
  }

  lemma {:induction false} ComputePreserved(w: World, m: seq<Func>, id: nat, f: seq<int> -> int,
                                            operands: seq<Operand>, s: map<nat, Operand>, args: seq<int>,
                                            env: map<nat, int>, env': map<nat, int>, mem: Memory,
                                            g: Grid, g': Grid, fuel: nat)
    requires Related(env, env', s, g) && id !in s
    ensures SameRun(RunInstr(w, m, Compute(id, f, operands), args, env, mem, g, fuel),
                    RunInstr(w, Convert(m), Compute(id, f, ForwardAll(s, operands)),
                             GridValues(g) + args, env', mem, g', fuel),
                    s, g)
  {
    hide Related, EvalAll;
    if EvalAll(operands, args, env).Done? {
      EvalForwardAll(operands, s, args, env, env', g);
      DefineRelated(env, env', id, f(EvalAll(operands, args, env).value), s, g);
    }
  }

  lemma {:induction false} CallPreserved(w: World, m: seq<Func>, ids: seq<nat>, callee: string,
                                         operands: seq<Operand>, s: map<nat, Operand>, args: seq<int>,
                                         env: map<nat, int>, env': map<nat, int>, mem: Memory,
                                         g: Grid, g': Grid, fuel: nat)
    requires Convertible(m) && Related(env, env', s, g)
    requires Find(m, callee).Done? && Find(m, callee).value.body.Internal?
    requires forall id | id in ids :: id !in s
    ensures SameRun(RunInstr(w, m, Call(ids, callee, operands), args, env, mem, g, fuel),
                    RunInstr(w, Convert(m), Call(ids, callee, GridArgs() + ForwardAll(s, operands)),
                             GridValues(g) + args, env', mem, g', fuel),
                    s, g)
    decreases fuel, 0, 1
  {
    var vs := EvalAll(operands, args, env);
    if vs.Done? {
      EvalCallOperands(operands, s, args, env, env', g);
      FuncPreserved(w, m, callee, vs.value, mem, g, g', fuel);
      var r := RunFunc(w, m, callee, vs.value, mem, g, fuel);
      if r.Done? && |r.value.0| == |ids| {
        BindRelated(env, env', ids, r.value.0, s, g);
      }
    }
  }

  lemma {:induction false} ForPreserved(w: World, m: seq<Func>, id: nat, body: seq<Instr>, k: nat, n: nat, s: map<nat, Operand>,
                                        args: seq<int>, env: map<nat, int>, env': map<nat, int>,
                                        mem: Memory, g: Grid, g': Grid, fuel: nat)
    requires Convertible(m) && CallsInternal(m, BlockCalls(body))
    requires id !in s && BlockConsistent(body, s) && Related(env, env', s, g)
    ensures Same(RunFor(w, m, id, body, k, n, args, env, mem, g, fuel),
                 RunFor(w, Convert(m), id, ConvertBlock(body, s), k, n, GridValues(g) + args, env', mem, g', fuel))
    decreases fuel, 1, body, n + 1
  {
    hide Related, Convertible, RunBlock, ConvertBlock, Convert;
    if n > 0 {
      DefineRelated(env, env', id, k, s, g);
      BlockPreserved(w, m, body, s, args, env[id := k], env'[id := k], mem, g, g', fuel);
      var r := RunBlock(w, m, body, args, env[id := k], mem, g, fuel);
      if r.Done? {
        ForPreserved(w, m, id, body, k + 1, n - 1, s, args, env, env', r.value.1, g, g', fuel);
      }
    }
  }
}
