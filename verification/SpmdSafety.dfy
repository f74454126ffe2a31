/** Verified modules never fault; so the conversion preserves their meaning without exception. */
module SpmdSafety {
  import opened Sequences
  import opened SpmdPrograms
  import opened SpmdConversion
  import opened SpmdCorrectness
  import opened SpmdGrids

  // ----- Dominance: every operand is defined before it is used -----

  predicate Available(o: Operand, numParams: nat, defined: set<nat>) {
    match o
    case Arg(i) => i < numParams
    case Res(k) => k in defined
  }

  predicate AllAvailable(os: seq<Operand>, numParams: nat, defined: set<nat>) {
    forall k | 0 <= k < |os| :: Available(os[k], numParams, defined)
  }

  /** What an instruction defines for the instructions that follow it in its block. */
  function Provides(instr: Instr): set<nat> {
    match instr
    case If(_, _, _) => {}
    case For(_, _, _) => {}
    case _ => Defs(instr)
  }

  predicate Dominated(instr: Instr, numParams: nat, defined: set<nat>)
    decreases instr
  {
    match instr
    case GetProgramId(_, _) => true
    case GetNumPrograms(_, _) => true
    case Compute(_, _, operands) => AllAvailable(operands, numParams, defined)
    case Load(_, address) => Available(address, numParams, defined)
    case Store(address, stored) =>
      Available(address, numParams, defined) && Available(stored, numParams, defined)
    case Call(_, _, operands) => AllAvailable(operands, numParams, defined)
    case If(condition, thenBlock, elseBlock) =>
      && Available(condition, numParams, defined)
      && BlockDominated(thenBlock, numParams, defined) && BlockDominated(elseBlock, numParams, defined)
    case For(id, count, body) =>
      Available(count, numParams, defined) && BlockDominated(body, numParams, defined + {id})
  }

  predicate BlockDominated(block: seq<Instr>, numParams: nat, defined: set<nat>)
    decreases block
  {
    block != [] ==>
      && Dominated(block[0], numParams, defined)
      && BlockDominated(block[1..], numParams, defined + Provides(block[0]))
  }

  function BlockProvides(block: seq<Instr>): set<nat> {
    if block == [] then {} else Provides(block[0]) + BlockProvides(block[1..])
  }

  predicate FuncDominated(f: Func) {
    f.body.Internal? ==>
      && BlockDominated(f.body.block, f.numParams, {})
      && AllAvailable(f.body.results, f.numParams, BlockProvides(f.body.block))
  }

  /** A module that passes the verifier, with only internal callees. */
  ghost predicate Verified(m: seq<Func>) {
    Convertible(m) && forall i | 0 <= i < |m| :: FuncDominated(m[i])
  }

  // ----- Verified modules never fault -----

  lemma {:induction false} EvalAllDone(os: seq<Operand>, args: seq<int>, env: map<nat, int>, defined: set<nat>)
    requires AllAvailable(os, |args|, defined) && defined <= env.Keys
    ensures EvalAll(os, args, env).Done? && |EvalAll(os, args, env).value| == |os|
    decreases os
  {
    if os != [] {
      assert Available(os[0], |args|, defined);
      EvalAllDone(os[1..], args, env, defined);
    }
  }

  lemma {:induction false} BindDefines(env: map<nat, int>, ids: seq<nat>, vs: seq<int>)
    requires |ids| == |vs|
    ensures Bind(env, ids, vs).Keys == env.Keys + set k | k in ids
    decreases ids
  {
    if ids != [] {
      BindDefines(env[ids[0] := vs[0]], ids[1..], vs[1..]);
    }
  }

  ghost predicate CallsFit(m: seq<Func>, calls: set<(string, nat, nat)>) {
    forall c | c in calls :: CallMatches(m, c) && Find(m, c.0).value.body.Internal?
  }

  lemma CallsOfFuncFit(m: seq<Func>, i: nat)
    requires Verified(m) && i < |m| && m[i].body.Internal?
    ensures CallsFit(m, BlockCalls(m[i].body.block))
  {
    InternalCalls(m, i);
    assert CallsOf(m[i]) == BlockCalls(m[i].body.block);
  }

  /** A call with the right number of arguments does not fault and returns all results. */
  lemma {:induction false} FuncNeverFaults(w: World, m: seq<Func>, name: string, args: seq<int>, mem: Memory,
                                           g: Grid, fuel: nat)
    requires Verified(m) && Find(m, name).Done? && Find(m, name).value.body.Internal?
    requires |args| == Find(m, name).value.numParams
    ensures var r := RunFunc(w, m, name, args, mem, g, fuel);
            !r.Fault? && (r.Done? ==> |r.value.0| == Find(m, name).value.numResults)
    decreases fuel, 0
  {
    if fuel > 0 {
      var i := FindIndex(m, name);
      var f := m[i];
      CallsOfFuncFit(m, i);
      BlockNeverFaults(w, m, f.body.block, args, map[], {}, mem, g, fuel - 1);
      var r := RunBlock(w, m, f.body.block, args, map[], mem, g, fuel - 1);
      if r.Done? {
        EvalAllDone(f.body.results, args, r.value.0, BlockProvides(f.body.block));
      }
    }
  }

  lemma {:induction false} BlockNeverFaults(w: World, m: seq<Func>, block: seq<Instr>, args: seq<int>,
                                            env: map<nat, int>, defined: set<nat>, mem: Memory, g: Grid, fuel: nat)
    requires Verified(m) && CallsFit(m, BlockCalls(block))
    requires BlockDominated(block, |args|, defined) && defined <= env.Keys
    ensures var r := RunBlock(w, m, block, args, env, mem, g, fuel);
            !r.Fault? && (r.Done? ==> defined + BlockProvides(block) <= r.value.0.Keys)
    decreases fuel, 1, block, 0
  {
    if block != [] {
      InstrNeverFaults(w, m, block[0], args, env, defined, mem, g, fuel);
      var r := RunInstr(w, m, block[0], args, env, mem, g, fuel);
      if r.Done? {
        BlockNeverFaults(w, m, block[1..], args, r.value.0, defined + Provides(block[0]), r.value.1, g, fuel);
      }
    }
  }

  lemma {:induction false} InstrNeverFaults(w: World, m: seq<Func>, instr: Instr, args: seq<int>,
                                            env: map<nat, int>, defined: set<nat>, mem: Memory, g: Grid, fuel: nat)
    requires Verified(m) && CallsFit(m, Calls(instr))
    requires Dominated(instr, |args|, defined) && defined <= env.Keys
    ensures var r := RunInstr(w, m, instr, args, env, mem, g, fuel);
            !r.Fault? && (r.Done? ==> defined + Provides(instr) <= r.value.0.Keys)
    decreases fuel, 1, instr, 0
  {
    hide Verified;
    match instr
    case Compute(_, _, operands) =>
      EvalAllDone(operands, args, env, defined);
    case Call(ids, callee, operands) =>
      EvalAllDone(operands, args, env, defined);
      assert CallMatches(m, (callee, |operands|, |ids|));
      var vs := EvalAll(operands, args, env).value;
      FuncNeverFaults(w, m, callee, vs, mem, g, fuel);
      var r := RunFunc(w, m, callee, vs, mem, g, fuel);
      if r.Done? {
        BindDefines(env, ids, r.value.0);
      }
    case If(condition, thenBlock, elseBlock) =>
      var c := Eval(condition, args, env).value;
      BlockNeverFaults(w, m, if c != 0 then thenBlock else elseBlock, args, env, defined, mem, g, fuel);
    case For(id, count, body) =>
      var n := Eval(count, args, env).value;
      ForNeverFaults(w, m, id, body, 0, if n < 0 then 0 else n, args, env, defined, mem, g, fuel);
    case _ =>
  }

  lemma {:induction false} ForNeverFaults(w: World, m: seq<Func>, id: nat, body: seq<Instr>, k: nat, n: nat, args: seq<int>,
                                          env: map<nat, int>, defined: set<nat>, mem: Memory, g: Grid, fuel: nat)
    requires Verified(m) && CallsFit(m, BlockCalls(body))
    requires BlockDominated(body, |args|, defined + {id}) && defined <= env.Keys
    ensures !RunFor(w, m, id, body, k, n, args, env, mem, g, fuel).Fault?
    decreases fuel, 1, body, n + 1
  {
    if n > 0 {
      BlockNeverFaults(w, m, body, args, env[id := k], defined + {id}, mem, g, fuel);
      var r := RunBlock(w, m, body, args, env[id := k], mem, g, fuel);
      if r.Done? {
        ForNeverFaults(w, m, id, body, k + 1, n - 1, args, env, defined, r.value.1, g, fuel);
      }
    }
  }

  lemma {:induction false} LaunchNeverFaults(w: World, m: seq<Func>, kernel: string, points: seq<Point>, n: Point,
                                             args: seq<int>, mem: Memory, fuel: nat)
    requires Verified(m) && Find(m, kernel).Done? && Find(m, kernel).value.body.Internal?
    requires |args| == Find(m, kernel).value.numParams
    ensures !Launch(w, m, kernel, points, n, args, mem, fuel).Fault?
    decreases points
  {
    if points != [] {
      var g := Grid(points[0], n);
      var before := Started(mem, Instance(kernel, g, args));
      FuncNeverFaults(w, m, kernel, args, before, g, fuel);
      var r := RunFunc(w, m, kernel, args, before, g, fuel);
      if r.Done? {
        LaunchNeverFaults(w, m, kernel, points[1..], n, args, r.value.1, fuel);
      }
    }
  }

  // ----- The main theorems -----

  /** Every function of a verified module behaves the same after the conversion, for every
      position in every grid: it computes the same results and the same memory, or both runs
      need more fuel. */
  lemma {:induction false} ConversionPreservesFunctions(w: World, m: seq<Func>, name: string, args: seq<int>,
                                                        mem: Memory, g: Grid, g': Grid, fuel: nat)
    requires Verified(m) && Find(m, name).Done? && Find(m, name).value.body.Internal?
    requires |args| == Find(m, name).value.numParams
    ensures RunFunc(w, Convert(m), name,
                    [g.programId.x, g.programId.y, g.programId.z, g.numPrograms.x, g.numPrograms.y, g.numPrograms.z] + args,
                    mem, g', fuel)
         == RunFunc(w, m, name, args, mem, g, fuel)
  {
    FuncPreserved(w, m, name, args, mem, g, g', fuel);
    FuncNeverFaults(w, m, name, args, mem, g, fuel);
  }

  // ----- The program instances that a launch starts -----

  /** Code without grid functions starts no program instances. */
  lemma {:induction false} FuncStartsNothing(w: World, m: seq<Func>, name: string, args: seq<int>, mem: Memory,
                                             g: Grid, fuel: nat)
    requires ValidModule(m)
    ensures var r := RunFunc(w, m, name, args, mem, g, fuel);
            r.Done? ==> r.value.1.launches == mem.launches
    decreases fuel, 0
  {
    if fuel > 0 && Find(m, name).Done? {
      var i := FindIndex(m, name);
      if m[i].body.Internal? {
        BlockStartsNothing(w, m, m[i].body.block, args, map[], mem, g, fuel - 1);
      }
    }
  }

  lemma {:induction false} BlockStartsNothing(w: World, m: seq<Func>, block: seq<Instr>, args: seq<int>,
                                              env: map<nat, int>, mem: Memory, g: Grid, fuel: nat)
    requires ValidModule(m)
    ensures var r := RunBlock(w, m, block, args, env, mem, g, fuel);
            r.Done? ==> r.value.1.launches == mem.launches
    decreases fuel, 1, block, 0
  {
    if block != [] {
      InstrStartsNothing(w, m, block[0], args, env, mem, g, fuel);
      var r := RunInstr(w, m, block[0], args, env, mem, g, fuel);
      if r.Done? {
        BlockStartsNothing(w, m, block[1..], args, r.value.0, r.value.1, g, fuel);
      }
    }
  }

  lemma {:induction false} InstrStartsNothing(w: World, m: seq<Func>, instr: Instr, args: seq<int>,
                                              env: map<nat, int>, mem: Memory, g: Grid, fuel: nat)
    requires ValidModule(m)
    ensures var r := RunInstr(w, m, instr, args, env, mem, g, fuel);
            r.Done? ==> r.value.1.launches == mem.launches
    decreases fuel, 1, instr, 0
  {
    hide ValidModule;
    match instr
    case Call(ids, callee, operands) =>
      var vs := EvalAll(operands, args, env);
      if vs.Done? {
        FuncStartsNothing(w, m, callee, vs.value, mem, g, fuel);
      }
    case If(condition, thenBlock, elseBlock) =>
      BlockStartsNothing(w, m, thenBlock, args, env, mem, g, fuel);
      BlockStartsNothing(w, m, elseBlock, args, env, mem, g, fuel);
    case For(id, count, body) =>
      var n := Eval(count, args, env);
      if n.Done? {
        ForStartsNothing(w, m, id, body, 0, if n.value < 0 then 0 else n.value, args, env, mem, g, fuel);
      }
    case _ =>
  }

  lemma {:induction false} ForStartsNothing(w: World, m: seq<Func>, id: nat, body: seq<Instr>, k: nat, n: nat, args: seq<int>,
                                            env: map<nat, int>, mem: Memory, g: Grid, fuel: nat)
    requires ValidModule(m)
    ensures var r := RunFor(w, m, id, body, k, n, args, env, mem, g, fuel);
            r.Done? ==> r.value.launches == mem.launches
    decreases fuel, 1, body, n + 1
  {
    if n > 0 {
      BlockStartsNothing(w, m, body, args, env[id := k], mem, g, fuel);
      var r := RunBlock(w, m, body, args, env[id := k], mem, g, fuel);
      if r.Done? {
        ForStartsNothing(w, m, id, body, k + 1, n - 1, args, env, r.value.1, g, fuel);
      }
    }
  }

  function Instances(kernel: string, points: seq<Point>, n: Point, args: seq<int>): seq<Instance> {
    if points == [] then []
    else [Instance(kernel, Grid(points[0], n), args)] + Instances(kernel, points[1..], n, args)
  }

  /** A launch that ends has started one program instance per point, in order. */
  lemma {:induction false} LaunchStarts(w: World, m: seq<Func>, kernel: string, points: seq<Point>, n: Point,
                                        args: seq<int>, mem: Memory, fuel: nat)
    requires ValidModule(m)
    ensures var r := Launch(w, m, kernel, points, n, args, mem, fuel);
            r.Done? ==> r.value.launches == mem.launches + Instances(kernel, points, n, args)
    decreases points
  {
    hide ValidModule, RunFunc;
    if points != [] {
      var g := Grid(points[0], n);
      var before := Started(mem, Instance(kernel, g, args));
      FuncStartsNothing(w, m, kernel, args, before, g, fuel);
      var r := RunFunc(w, m, kernel, args, before, g, fuel);
      if r.Done? {
        LaunchStarts(w, m, kernel, points[1..], n, args, r.value.1, fuel);
        ConcatAssociates(mem.launches, [Instance(kernel, g, args)], Instances(kernel, points[1..], n, args));
      }
    }
  }

  lemma {:induction false} CountInstances(kernel: string, points: seq<Point>, n: Point, args: seq<int>, p: Point)
    ensures multiset(Instances(kernel, points, n, args))[Instance(kernel, Grid(p, n), args)] == multiset(points)[p]
    decreases points
  {
    if points != [] {
      CountInstances(kernel, points[1..], n, args, p);
      assert points == [points[0]] + points[1..];
    }
  }

  lemma {:induction false} InstancesOnly(kernel: string, points: seq<Point>, n: Point, args: seq<int>, v: Instance)
    requires v in Instances(kernel, points, n, args)
    ensures v == Instance(kernel, Grid(v.grid.programId, n), args) && v.grid.programId in points
    decreases points
  {
    if v != Instance(kernel, Grid(points[0], n), args) {
      InstancesOnly(kernel, points[1..], n, args, v);
    }
  }

  /** Every point of the grid has been started exactly once, with the extents of the grid and the
      given arguments, and nothing else has been started. */
  ghost predicate GridStarted(before: Memory, after: Memory, kernel: string, n: Point, args: seq<int>) {
    && before.launches <= after.launches
    && var started := after.launches[|before.launches|..];
       && (forall p :: multiset(started)[Instance(kernel, Grid(p, n), args)] == if InGrid(p, n) then 1 else 0)
       && (forall v | v in started :: v == Instance(kernel, Grid(v.grid.programId, n), args) && InGrid(v.grid.programId, n))
  }

  lemma {:induction false} CoveredGridIsStarted(before: Memory, after: Memory, kernel: string, points: seq<Point>,
                                                n: Point, args: seq<int>)
    requires CoversGrid(points, n) && after.launches == before.launches + Instances(kernel, points, n, args)
    ensures GridStarted(before, after, kernel, n, args)
  {
    var started := Instances(kernel, points, n, args);
    assert after.launches[|before.launches|..] == started;
    forall p
      ensures multiset(started)[Instance(kernel, Grid(p, n), args)] == if InGrid(p, n) then 1 else 0
    {
      CountInstances(kernel, points, n, args, p);
    }
    forall v | v in started
      ensures v == Instance(kernel, Grid(v.grid.programId, n), args) && InGrid(v.grid.programId, n)
    {
      InstancesOnly(kernel, points, n, args, v);
      assert multiset(points)[v.grid.programId] > 0;
    }
  }

  /** Calling the grid function of a kernel of a verified module is launching the kernel, for a
      list of points that has every point of the grid exactly once and no other point; and every
      point of the grid is started exactly once, whatever the order in which the loop runs. */
  lemma {:induction false} ConversionPreservesLaunches(w: World, m: seq<Func>, i: nat, n: Point, args: seq<int>,
                                                       mem: Memory, g': Grid, fuel: nat)
    requires Verified(m) && NoNameClash(m) && ValidWorld(w)
    requires i < |m| && m[i].body.Internal? && m[i].numResults == 0 && |args| == m[i].numParams
    ensures CoversGrid(LaunchPoints(w, n), n)
    ensures var launch := Launch(w, m, m[i].name, LaunchPoints(w, n), n, args, mem, fuel);
            var call := RunFunc(w, Convert(m), m[i].name + "_grid", [n.x, n.y, n.z] + args, mem, g', fuel + 1);
            && call == (if launch.Done? then Done(([], launch.value)) else Timeout)
            && (call.Done? ==> GridStarted(mem, call.value.1, m[i].name, n, args))
            && (call.Done? ==>
                  && mem.launches <= call.value.1.launches
                  && var started := call.value.1.launches[|mem.launches|..];
                     forall x: int, y: int, z: int ::
                       multiset(started)[Instance(m[i].name, Grid(Point(x, y, z), n), args)]
                       == if 0 <= x < n.x && 0 <= y < n.y && 0 <= z < n.z then 1 else 0)
  {
    hide CoversGrid, LaunchPoints, RunFunc, ValidWorld, GridStarted;
    FindSelf(m, i);
    GridFuncLaunches(w, m, i, n, args, mem, g', fuel);
    LaunchNeverFaults(w, m, m[i].name, LaunchPoints(w, n), n, args, mem, fuel);
    LaunchPointsCoverGrid(w, n);
    LaunchStarts(w, m, m[i].name, LaunchPoints(w, n), n, args, mem, fuel);
    var launch := Launch(w, m, m[i].name, LaunchPoints(w, n), n, args, mem, fuel);
    if launch.Done? {
      CoveredGridIsStarted(mem, launch.value, m[i].name, LaunchPoints(w, n), n, args);
      StartedAt(mem, launch.value, m[i].name, n, args);
    }
  }

  lemma StartedAt(before: Memory, after: Memory, kernel: string, n: Point, args: seq<int>)
    requires GridStarted(before, after, kernel, n, args)
    ensures before.launches <= after.launches
    ensures var started := after.launches[|before.launches|..];
            forall x: int, y: int, z: int ::
              multiset(started)[Instance(kernel, Grid(Point(x, y, z), n), args)]
              == if 0 <= x < n.x && 0 <= y < n.y && 0 <= z < n.z then 1 else 0
  {
    var started := after.launches[|before.launches|..];
    forall x: int, y: int, z: int
      ensures multiset(started)[Instance(kernel, Grid(Point(x, y, z), n), args)]
           == if 0 <= x < n.x && 0 <= y < n.y && 0 <= z < n.z then 1 else 0
    {
      assert InGrid(Point(x, y, z), n) <==> 0 <= x < n.x && 0 <= y < n.y && 0 <= z < n.z;
    }
  }
}
