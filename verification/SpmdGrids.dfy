/** Grid functions run their kernels for whole grids; and when the converted module is valid. */
module SpmdGrids {
  import opened Sequences
  import opened SpmdPrograms
  import opened SpmdConversion
  import opened SpmdCorrectness

  predicate InGrid(p: Point, n: Point) {
    0 <= p.x < n.x && 0 <= p.y < n.y && 0 <= p.z < n.z
  }

  /** The points contain every point of the grid exactly once, and no other. */
  ghost predicate CoversGrid(points: seq<Point>, n: Point) {
    forall p :: multiset(points)[p] == if InGrid(p, n) then 1 else 0
  }

  // ----- Grid functions -----

  /** No grid function gets the name of a function of the module. */
  predicate NoNameClash(m: seq<Func>) {
    forall i, j | 0 <= i < |m| && 0 <= j < |m| && IsKernel(m[i]) :: GridName(m[i].name) != m[j].name
  }

  lemma {:induction false} FindSkips(a: seq<Func>, b: seq<Func>, name: string)
    requires forall i | 0 <= i < |a| :: a[i].name != name
    ensures Find(a + b, name) == Find(b, name)
    decreases a
  {
    if a == [] {
      assert a + b == b;
    } else {
      assert (a + b)[1..] == a[1..] + b;
      FindSkips(a[1..], b, name);
    }
  }

  lemma GridNameInjective(a: string, b: string)
    requires GridName(a) == GridName(b)
    ensures a == b
  {
    assert a == GridName(a)[..|GridName(a)| - 5];
    assert b == GridName(b)[..|GridName(b)| - 5];
  }

  lemma {:induction false} FindGridFunc(m: seq<Func>, i: nat)
    requires DistinctNames(m) && i < |m| && IsKernel(m[i])
    ensures Find(GridFuncs(m), GridName(m[i].name)) == Done(GridFunc(m[i]))
    decreases m
  {
    if i > 0 {
      assert DistinctNames(m[1..]);
      FindGridFunc(m[1..], i - 1);
      if IsKernel(m[0]) {
        if GridName(m[0].name) == GridName(m[i].name) {
          GridNameInjective(m[0].name, m[i].name);
        }
        assert GridFuncs(m)[1..] == GridFuncs(m[1..]);
      } else {
        assert GridFuncs(m) == GridFuncs(m[1..]);
      }
    }
  }

  /** The extents of the grid and the arguments of the kernel, as the grid function gets them. */
  function GridFuncArgs(n: Point, args: seq<int>): seq<int> {
    [n.x, n.y, n.z] + args
  }

  lemma {:induction false} EvalParams(vs: seq<LoopValue>, args: seq<int>, p: Point, from: nat)
    requires from + |vs| == |args| && forall k | 0 <= k < |vs| :: vs[k] == Param(from + k)
    ensures EvalCallArgs(vs, args, p) == Done(args[from..])
    decreases |vs|
  {
    if vs != [] {
      EvalParams(vs[1..], args, p, from + 1);
      assert args[from..] == [args[from]] + args[from + 1..];
    }
  }

  /** In the iteration at `p`, the kernel gets the position, the extents and its arguments. */
  lemma {:induction false} GridLoopCall(kernel: Func, n: Point, args: seq<int>, p: Point)
    requires |args| == kernel.numParams
    ensures EvalCallArgs(GridLoop(kernel).callArgs, GridFuncArgs(n, args), p) == Done(GridValues(Grid(p, n)) + args)
  {
    var all := GridFuncArgs(n, args);
    var params := Params(kernel.numParams + 3);
    EvalParams(params, all, p, 0);
    var vs := GridLoop(kernel).callArgs;
    assert vs[1..][1..][1..] == params && vs[1..][1..][0] == Induction(Z) && vs[1..][0] == Induction(Y);
    assert EvalCallArgs(vs[1..][1..], all, p) == Done([p.z] + all);
    assert EvalCallArgs(vs[1..], all, p) == Done([p.y] + ([p.z] + all));
    assert [p.x] + ([p.y] + ([p.z] + all)) == GridValues(Grid(p, n)) + args;
  }

  /** The parallel loop of a grid function does what the launch of the kernel does, and starts the
      same program instances. */
  lemma {:induction false} GridLoopPreserved(w: World, m: seq<Func>, i: nat, points: seq<Point>, n: Point,
                                             args: seq<int>, mem: Memory, g': Grid, fuel: nat)
    requires Convertible(m) && i < |m| && IsKernel(m[i]) && |args| == m[i].numParams
    ensures Same(Launch(w, m, m[i].name, points, n, args, mem, fuel),
                 RunGrid(w, Convert(m), GridLoop(m[i]), points, GridFuncArgs(n, args), mem, g', fuel))
    decreases points
  {
    hide Convertible, EvalCallArgs, GridFuncArgs;
    if points != [] {
      var g := Grid(points[0], n);
      KernelIsFound(m, i);
      GridLoopCall(m[i], n, args, points[0]);
      var vs := GridValues(g) + args;
      assert vs[6..] == args;
      assert InstanceOf(m[i].name, vs) == Instance(m[i].name, g, args);
      var before := Started(mem, Instance(m[i].name, g, args));
      FuncPreserved(w, m, m[i].name, args, before, g, g', fuel);
      var r := RunFunc(w, m, m[i].name, args, before, g, fuel);
      if r.Done? {
        GridLoopPreserved(w, m, i, points[1..], n, args, r.value.1, g', fuel);
      }
    }
  }

  lemma KernelIsFound(m: seq<Func>, i: nat)
    requires Convertible(m) && i < |m| && IsKernel(m[i])
    ensures Find(m, m[i].name) == Done(m[i]) && m[i].body.Internal?
  {
    FindSelf(m, i);
  }

  /** The points for which a grid with the given extents is launched, in the order of the world. */
  function LaunchPoints(w: World, n: Point): seq<Point> {
    w.order(Iterations(Point(0, 0, 0), n, Point(1, 1, 1)))
  }

  lemma GridLoopPoints(w: World, kernel: Func, n: Point, args: seq<int>)
    ensures LoopPoints(w, GridLoop(kernel), GridFuncArgs(n, args)) == Done(LaunchPoints(w, n))
  {
    var all := GridFuncArgs(n, args);
    assert all[0] == n.x && all[1] == n.y && all[2] == n.z;
  }

  /** Calling `k_grid` in the converted module is launching `k` in the original one, for the points
      that the bounds of its loop give. */
  lemma {:induction false} GridFuncLaunches(w: World, m: seq<Func>, i: nat, n: Point, args: seq<int>,
                                            mem: Memory, g': Grid, fuel: nat)
    requires Convertible(m) && NoNameClash(m)
    requires i < |m| && m[i].body.Internal? && m[i].numResults == 0 && |args| == m[i].numParams
    ensures var launch := Launch(w, m, m[i].name, LaunchPoints(w, n), n, args, mem, fuel);
            var call := RunFunc(w, Convert(m), m[i].name + "_grid", [n.x, n.y, n.z] + args, mem, g', fuel + 1);
            && (launch.Done? ==> call == Done(([], launch.value)))
            && (launch.Timeout? ==> call.Timeout?)
  {
    FindGridFunc(m, i);
    FindSkips(ConvertFuncs(m), GridFuncs(m), GridName(m[i].name));
    hide Convertible, LaunchPoints, LoopPoints, GridLoop;
    GridLoopPoints(w, m[i], n, args);
    GridLoopPreserved(w, m, i, LaunchPoints(w, n), n, args, mem, g', fuel);
  }

  lemma {:induction false} FindSelf(m: seq<Func>, i: nat)
    requires DistinctNames(m) && i < |m|
    ensures Find(m, m[i].name) == Done(m[i])
    decreases m
  {
    if i > 0 {
      FindSelf(m[1..], i - 1);
    }
  }

  // ----- The iterations cover the grid -----

  lemma {:induction false} StepsOfOne(lo: int, hi: int, v: int)
    ensures multiset(Steps(lo, hi, 1))[v] == if lo <= v < hi then 1 else 0
    decreases hi - lo
  {
    if lo < hi {
      StepsOfOne(lo + 1, hi, v);
    }
  }

  lemma {:induction false} CountTail(xs: seq<int>, v: int)
    requires xs != []
    ensures multiset(xs)[v] == (if xs[0] == v then 1 else 0) + multiset(xs[1..])[v]
  {
    assert xs == [xs[0]] + xs[1..];
  }

  lemma {:induction false} LineCovers(x: int, y: int, zs: seq<int>, p: Point)
    ensures multiset(Line(x, y, zs))[p] == if p.x == x && p.y == y then multiset(zs)[p.z] else 0
    decreases zs
  {
    if zs != [] {
      LineCovers(x, y, zs[1..], p);
      CountTail(zs, p.z);
    }
  }

  lemma {:induction false} PlaneCovers(x: int, ys: seq<int>, zs: seq<int>, p: Point)
    requires multiset(ys)[p.y] <= 1
    ensures multiset(Plane(x, ys, zs))[p] == if p.x == x && p.y in ys then multiset(zs)[p.z] else 0
    decreases ys
  {
    if ys != [] {
      CountTail(ys, p.y);
      LineCovers(x, ys[0], zs, p);
      PlaneCovers(x, ys[1..], zs, p);
      assert p.y in ys <==> p.y == ys[0] || p.y in ys[1..];
    }
  }

  lemma {:induction false} BoxCovers(xs: seq<int>, ys: seq<int>, zs: seq<int>, p: Point)
    requires multiset(xs)[p.x] <= 1 && multiset(ys)[p.y] <= 1
    ensures multiset(Box(xs, ys, zs))[p] == if p.x in xs && p.y in ys then multiset(zs)[p.z] else 0
    decreases xs
  {
    if xs != [] {
      CountTail(xs, p.x);
      PlaneCovers(xs[0], ys, zs, p);
      BoxCovers(xs[1..], ys, zs, p);
      assert p.x in xs <==> p.x == xs[0] || p.x in xs[1..];
    }
  }

  /** A loop from zero to the extents of a grid, in steps of one, covers the grid. */
  lemma {:induction false} IterationsCoverGrid(n: Point)
    ensures CoversGrid(Iterations(Point(0, 0, 0), n, Point(1, 1, 1)), n)
  {
    hide Steps, Box;
    var xs, ys, zs := Steps(0, n.x, 1), Steps(0, n.y, 1), Steps(0, n.z, 1);
    forall p: Point
      ensures multiset(Box(xs, ys, zs))[p] == if InGrid(p, n) then 1 else 0
    {
      StepsOfOne(0, n.x, p.x);
      StepsOfOne(0, n.y, p.y);
      StepsOfOne(0, n.z, p.z);
      BoxCovers(xs, ys, zs, p);
    }
  }

  /** Whatever the order in which the loop runs, it runs every point of the grid exactly once. */
  lemma {:induction false} LaunchPointsCoverGrid(w: World, n: Point)
    requires ValidWorld(w)
    ensures CoversGrid(LaunchPoints(w, n), n)
  {
    hide Iterations;
    IterationsCoverGrid(n);
  }

  // ----- When the converted module is valid -----

  /** The converted calls: the same callees, with six more operands. */
  function Extended(calls: set<(string, nat, nat)>): set<(string, nat, nat)> {
    set c | c in calls :: (c.0, c.1 + 6, c.2)
  }

  lemma BlockCallsSingle(instr: Instr)
    ensures BlockCalls([instr]) == Calls(instr) && BlockCalls([]) == {}
  {
    assert [instr][1..] == [];
  }

  lemma ExtendedCalls(a: set<(string, nat, nat)>, b: set<(string, nat, nat)>, callee: string, n: nat, k: nat)
    ensures Extended({}) == {} && Extended(a + b) == Extended(a) + Extended(b)
    ensures Extended({(callee, n, k)}) == {(callee, n + 6, k)}
  {
  }

  lemma {:induction false} ConvertedCalls(instr: Instr, s: map<nat, Operand>)
    ensures BlockCalls(ConvertInstr(instr, s)) == Extended(Calls(instr))
    decreases instr
  {
    hide BlockCalls, Extended;
    BlockCallsSingle(instr);
    ExtendedCalls({}, {}, "", 0, 0);
    if |ConvertInstr(instr, s)| == 1 {
      BlockCallsSingle(ConvertInstr(instr, s)[0]);
    }
    match instr
    case Call(ids, callee, operands) =>
      assert |GridArgs() + ForwardAll(s, operands)| == |operands| + 6;
      ExtendedCalls({}, {}, callee, |operands|, |ids|);
    case If(_, thenBlock, elseBlock) =>
      ConvertedBlockCalls(thenBlock, s);
      ConvertedBlockCalls(elseBlock, s);
      ExtendedCalls(BlockCalls(thenBlock), BlockCalls(elseBlock), "", 0, 0);
    case For(_, _, body) =>
      ConvertedBlockCalls(body, s);
    case _ =>
  }

  lemma {:induction false} ConvertedBlockCalls(block: seq<Instr>, s: map<nat, Operand>)
    ensures BlockCalls(ConvertBlock(block, s)) == Extended(BlockCalls(block))
    decreases block
  {
    if block != [] {
      ConvertedCalls(block[0], s);
      ConvertedBlockCalls(block[1..], s);
      BlockCallsAppend(ConvertInstr(block[0], s), ConvertBlock(block[1..], s));
    }
  }

  lemma {:induction false} BlockCallsAppend(a: seq<Instr>, b: seq<Instr>)
    ensures BlockCalls(a + b) == BlockCalls(a) + BlockCalls(b)
    decreases a
  {
    if a == [] {
      assert a + b == b;
    } else {
      assert (a + b)[1..] == a[1..] + b;
      BlockCallsAppend(a[1..], b);
    }
  }

  /** A call of a module matches its callee after the conversion exactly if the callee has a body. */
  lemma {:induction false} ConvertedCallMatches(m: seq<Func>, c: (string, nat, nat))
    requires ValidModule(m) && CallMatches(m, c)
    ensures CallMatches(Convert(m), (c.0, c.1 + 6, c.2)) <==> !Find(m, c.0).value.body.External?
  {
    var i := FindIndex(m, c.0);
    FindConverted(m, GridFuncs(m), c.0);
    if m[i].body.Internal? {
      ConvertedFunc(m[i]);
    }
  }

  lemma {:induction false} GridFuncOrigin(m: seq<Func>, k: nat) returns (i: nat)
    requires k < |GridFuncs(m)|
    ensures i < |m| && IsKernel(m[i]) && GridFuncs(m)[k] == GridFunc(m[i])
    decreases m
  {
    if IsKernel(m[0]) && k == 0 {
      i := 0;
    } else {
      i := GridFuncOrigin(m[1..], if IsKernel(m[0]) then k - 1 else k);
      i := i + 1;
    }
  }

  lemma {:induction false} GridCallMatches(m: seq<Func>, k: nat)
    requires ValidModule(m) && k < |GridFuncs(m)|
    ensures forall c | c in CallsOf(GridFuncs(m)[k]) :: CallMatches(Convert(m), c)
  {
    var i := GridFuncOrigin(m, k);
    FindSelf(m, i);
    FindConverted(m, GridFuncs(m), m[i].name);
    ConvertedFunc(m[i]);
  }

  lemma {:induction false} CallsOfConverted(f: Func)
    requires !f.body.GridDriver?
    ensures CallsOf(ConvertFunc(f)) == Extended(CallsOf(f))
  {
    if f.body.Internal? {
      ConvertedFunc(f);
      ConvertedBlockCalls(f.body.block, BlockSpmdArgs(f.body.block));
    }
  }

  /** The calls of the converted module match their callees exactly if no call of the original
      module has an external callee: external functions do not get the grid arguments. */
  lemma {:induction false} ConvertedModuleIsVerified(m: seq<Func>)
    requires ValidModule(m)
    ensures CallsMatch(Convert(m)) <==> CallsOnlyInternal(m)
  {
    var r := Convert(m);
    forall i | 0 <= i < |m|
      ensures (forall c | c in CallsOf(r[i]) :: CallMatches(r, c))
         <==> (forall c | c in CallsOf(m[i]) :: !Find(m, c.0).value.body.External?)
    {
      CallsOfConverted(m[i]);
      forall c | c in CallsOf(m[i])
        ensures (c.0, c.1 + 6, c.2) in CallsOf(r[i])
        ensures CallMatches(r, (c.0, c.1 + 6, c.2)) <==> !Find(m, c.0).value.body.External?
      {
        ConvertedCallMatches(m, c);
      }
    }
    forall k | |m| <= k < |r|
      ensures forall c | c in CallsOf(r[k]) :: CallMatches(r, c)
    {
      GridCallMatches(m, k - |m|);
    }
    if CallsMatch(r) {
      forall i, c | 0 <= i < |m| && c in CallsOf(m[i])
        ensures Find(m, c.0).Done? && !Find(m, c.0).value.body.External?
      {
        assert CallMatches(m, c);
      }
    }
  }

  /** The symbols of the converted module are distinct exactly if there is no name clash. */
  lemma {:induction false} ConvertedNamesAreDistinct(m: seq<Func>)
    requires DistinctNames(m)
    ensures DistinctNames(Convert(m)) <==> NoNameClash(m)
  {
    if NoNameClash(m) {
      NamesWithoutClash(m);
    } else {
      var i, j :| 0 <= i < |m| && 0 <= j < |m| && IsKernel(m[i]) && GridName(m[i].name) == m[j].name;
      FindGridFunc(m, i);
      var k := FindIndex(GridFuncs(m), GridName(m[i].name));
      var r := Convert(m);
      assert r[j].name == m[j].name && r[|m| + k].name == GridName(m[i].name);
    }
  }

  lemma {:induction false} NamesWithoutClash(m: seq<Func>)
    requires DistinctNames(m) && NoNameClash(m)
    ensures DistinctNames(Convert(m))
  {
    var r := Convert(m);
    forall a, b | 0 <= a < b < |r|
      ensures r[a].name != r[b].name
    {
      if b < |m| {
        assert r[a].name == m[a].name && r[b].name == m[b].name;
      } else if a < |m| {
        var j := GridFuncOrigin(m, b - |m|);
        assert r[a].name == m[a].name && r[b].name == GridName(m[j].name);
      } else {
        GridFuncsDistinct(m, a - |m|, b - |m|);
        assert r[a] == GridFuncs(m)[a - |m|] && r[b] == GridFuncs(m)[b - |m|];
      }
    }
  }

  lemma {:induction false} GridFuncsDistinct(m: seq<Func>, a: nat, b: nat)
    requires DistinctNames(m) && a < b < |GridFuncs(m)|
    ensures GridFuncs(m)[a].name != GridFuncs(m)[b].name
    decreases m
  {
    if IsKernel(m[0]) {
      if a == 0 {
        var j := GridFuncOrigin(m[1..], b - 1);
        if GridName(m[0].name) == GridName(m[1..][j].name) {
          GridNameInjective(m[0].name, m[1..][j].name);
        }
      } else {
        GridFuncsDistinct(m[1..], a - 1, b - 1);
      }
    } else {
      GridFuncsDistinct(m[1..], a, b);
    }
  }
}
