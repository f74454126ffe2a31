/** Modules of functions that may ask for their position in a grid of program instances. */
module SpmdPrograms {
  import opened Sequences
  import Cells

  /** The result of running something: a fault (the IR is broken), out of fuel, or a value. */
  datatype Outcome<+T> = Fault | Timeout | Done(value: T) {
    predicate IsFailure() {
      !Done?
    }
    function PropagateFailure<U>(): Outcome<U>
      requires IsFailure()
    {
      if Fault? then Fault else Timeout
    }
    function Extract(): T
      requires Done?
    {
      value
    }
  }

  /** An SSA value: an argument of the enclosing function or the result of an op. */
  datatype Operand = Arg(index: nat) | Res(id: nat)

  datatype Axis = X | Y | Z {
    function Index(): nat {
      match this
      case X => 0
      case Y => 1
      case Z => 2
    }
  }

  datatype Instr =
    | GetProgramId(id: nat, axis: Axis)
    | GetNumPrograms(id: nat, axis: Axis)
    | Compute(id: nat, f: seq<int> -> int, operands: seq<Operand>)
    | Load(id: nat, address: Operand)
    | Store(address: Operand, stored: Operand)
    | Call(ids: seq<nat>, callee: string, operands: seq<Operand>)
    | If(condition: Operand, thenBlock: seq<Instr>, elseBlock: seq<Instr>)
    | For(id: nat, count: Operand, body: seq<Instr>)   // `id` is the number of the iteration

  /** A value in a grid function: a constant, an argument of the grid function, or a variable of
      its loop. */
  datatype LoopValue = Constant(c: int) | Param(index: nat) | Induction(axis: Axis)

  datatype Triple = Triple(x: LoopValue, y: LoopValue, z: LoopValue)

  /** A parallel loop over three variables that calls a kernel. */
  datatype ParallelLoop = ParallelLoop(lowerBounds: Triple, upperBounds: Triple, steps: Triple,
                                       kernel: string, callArgs: seq<LoopValue>)

  /** The body of a grid function is a parallel loop. */
  datatype Body =
    | External
    | Internal(block: seq<Instr>, results: seq<Operand>)
    | GridDriver(loop: ParallelLoop)

  datatype Func = Func(name: string, numParams: nat, numResults: nat, body: Body)

  datatype Point = Point(x: int, y: int, z: int)

  /** The ambient position in the grid and the extent of the grid. */
  datatype Grid = Grid(programId: Point, numPrograms: Point)

  function Coordinate(p: Point, axis: Axis): int {
    match axis
    case X => p.x
    case Y => p.y
    case Z => p.z
  }

  /** One program instance of a kernel: where it is in which grid, and its arguments. */
  datatype Instance = Instance(kernel: string, grid: Grid, args: seq<int>)

  /** The cells of the memory, and the program instances that have been started so far. */
  datatype Memory = Memory(cells: Cells.Memory, launches: seq<Instance>)

  function Started(mem: Memory, instance: Instance): Memory {
    mem.(launches := mem.launches + [instance])
  }

  /** What modules are run in: external functions, and the order in which parallel loops run
      their iterations. */
  datatype World = World(external: (string, seq<int>, Cells.Memory) -> (seq<int>, Cells.Memory),
                         order: seq<Point> -> seq<Point>)

  /** Parallel loops run each of their iterations once, in any order. */
  ghost predicate ValidWorld(w: World) {
    forall points :: multiset(w.order(points)) == multiset(points)
  }

  function Find(m: seq<Func>, name: string): (r: Outcome<Func>)
    ensures !r.Timeout?
  {
    if m == [] then Fault else if m[0].name == name then Done(m[0]) else Find(m[1..], name)
  }

  function Eval(o: Operand, args: seq<int>, env: map<nat, int>): Outcome<int> {
    match o
    case Arg(i) => if i < |args| then Done(args[i]) else Fault
    case Res(k) => if k in env then Done(env[k]) else Fault
  }

  function EvalAll(os: seq<Operand>, args: seq<int>, env: map<nat, int>): (r: Outcome<seq<int>>)
    ensures !r.Timeout?
  {
    if os == [] then Done([])
    else
      var v :- Eval(os[0], args, env);
      var vs :- EvalAll(os[1..], args, env);
      Done([v] + vs)
  }

  function Bind(env: map<nat, int>, ids: seq<nat>, vs: seq<int>): map<nat, int>
    requires |ids| == |vs|
    decreases ids
  {
    if ids == [] then env else Bind(env[ids[0] := vs[0]], ids[1..], vs[1..])
  }

  // ----- Parallel loops -----

  function EvalBound(v: LoopValue, args: seq<int>): Outcome<int> {
    match v
    case Constant(c) => Done(c)
    case Param(i) => if i < |args| then Done(args[i]) else Fault
    case Induction(_) => Fault
  }

  function EvalBounds(t: Triple, args: seq<int>): Outcome<Point> {
    var x :- EvalBound(t.x, args);
    var y :- EvalBound(t.y, args);
    var z :- EvalBound(t.z, args);
    Done(Point(x, y, z))
  }

  /** The arguments of the call in the iteration at `p`. */
  function EvalCallArgs(vs: seq<LoopValue>, args: seq<int>, p: Point): (r: Outcome<seq<int>>)
    ensures !r.Timeout?
  {
    if vs == [] then Done([])
    else
      var v :- if vs[0].Induction? then Done(Coordinate(p, vs[0].axis)) else EvalBound(vs[0], args);
      var rest :- EvalCallArgs(vs[1..], args, p);
      Done([v] + rest)
  }

  function Line(x: int, y: int, zs: seq<int>): seq<Point> {
    if zs == [] then [] else [Point(x, y, zs[0])] + Line(x, y, zs[1..])
  }

  function Plane(x: int, ys: seq<int>, zs: seq<int>): seq<Point> {
    if ys == [] then [] else Line(x, ys[0], zs) + Plane(x, ys[1..], zs)
  }

  function Box(xs: seq<int>, ys: seq<int>, zs: seq<int>): seq<Point> {
    if xs == [] then [] else Plane(xs[0], ys, zs) + Box(xs[1..], ys, zs)
  }

  /** The iterations of a loop with the given bounds, x outermost and z innermost. */
  function Iterations(lower: Point, upper: Point, step: Point): seq<Point>
    requires step.x > 0 && step.y > 0 && step.z > 0
  {
    Box(Steps(lower.x, upper.x, step.x), Steps(lower.y, upper.y, step.y), Steps(lower.z, upper.z, step.z))
  }

  /** The iterations that a loop runs, in the order in which it runs them. */
  function LoopPoints(w: World, loop: ParallelLoop, args: seq<int>): Outcome<seq<Point>> {
    var lower :- EvalBounds(loop.lowerBounds, args);
    var upper :- EvalBounds(loop.upperBounds, args);
    var step :- EvalBounds(loop.steps, args);
    if step.x <= 0 || step.y <= 0 || step.z <= 0 then Fault
    else Done(w.order(Iterations(lower, upper, step)))
  }

  /** The program instance that a call with the given arguments is: by convention, the position
      and the extents of the grid come first. */
  function InstanceOf(kernel: string, args: seq<int>): Instance
    requires |args| >= 6
  {
    Instance(kernel, Grid(Point(args[0], args[1], args[2]), Point(args[3], args[4], args[5])), args[6..])
  }

  // ----- Runs -----

  /** Runs a function. One unit of fuel is spent per nested call. */
  function RunFunc(w: World, m: seq<Func>, name: string, args: seq<int>, mem: Memory, grid: Grid, fuel: nat)
    : Outcome<(seq<int>, Memory)>
    decreases fuel, 0
  {
    if fuel == 0 then Timeout
    else
      var f :- Find(m, name);
      if |args| != f.numParams then Fault
      else
        match f.body
        case External =>
          var (vs, cells) := w.external(name, args, mem.cells);
          Done((vs, mem.(cells := cells)))
        case GridDriver(loop) =>
          var points :- LoopPoints(w, loop, args);
          var mem' :- RunGrid(w, m, loop, points, args, mem, grid, fuel - 1);
          Done(([], mem'))
        case Internal(block, results) =>
          var (env, mem') :- RunBlock(w, m, block, args, map[], mem, grid, fuel - 1);
          var vs :- EvalAll(results, args, env);
          Done((vs, mem'))
  }

  /** Runs the given iterations of a parallel loop, one after the other. */
  function RunGrid(w: World, m: seq<Func>, loop: ParallelLoop, points: seq<Point>, args: seq<int>,
                   mem: Memory, grid: Grid, fuel: nat): Outcome<Memory>
    decreases fuel, 1, points, 0
  {
    if points == [] then Done(mem)
    else
      var vs :- EvalCallArgs(loop.callArgs, args, points[0]);
      if |vs| < 6 then Fault
      else
        var (_, mem') :- RunFunc(w, m, loop.kernel, vs, Started(mem, InstanceOf(loop.kernel, vs)), grid, fuel);
        RunGrid(w, m, loop, points[1..], args, mem', grid, fuel)
  }

  function RunBlock(w: World, m: seq<Func>, block: seq<Instr>, args: seq<int>, env: map<nat, int>,
                    mem: Memory, grid: Grid, fuel: nat): Outcome<(map<nat, int>, Memory)>
    decreases fuel, 1, block, 0
  {
    if block == [] then Done((env, mem))
    else
      var (env', mem') :- RunInstr(w, m, block[0], args, env, mem, grid, fuel);
      RunBlock(w, m, block[1..], args, env', mem', grid, fuel)
  }

  function RunInstr(w: World, m: seq<Func>, instr: Instr, args: seq<int>, env: map<nat, int>,
                    mem: Memory, grid: Grid, fuel: nat): Outcome<(map<nat, int>, Memory)>
    decreases fuel, 1, instr, 0
  {
    match instr
    case GetProgramId(id, axis) => Done((env[id := Coordinate(grid.programId, axis)], mem))
    case GetNumPrograms(id, axis) => Done((env[id := Coordinate(grid.numPrograms, axis)], mem))
    case Compute(id, f, operands) =>
      var vs :- EvalAll(operands, args, env);
      Done((env[id := f(vs)], mem))
    case Load(id, address) =>
      var a :- Eval(address, args, env);
      Done((env[id := Cells.Read(mem.cells, a)], mem))
    case Store(address, stored) =>
      var a :- Eval(address, args, env);
      var v :- Eval(stored, args, env);
      Done((env, mem.(cells := mem.cells[a := v])))
    case Call(ids, callee, operands) =>
      var vs :- EvalAll(operands, args, env);
      var (rs, mem') :- RunFunc(w, m, callee, vs, mem, grid, fuel);
      if |rs| != |ids| then Fault else Done((Bind(env, ids, rs), mem'))
    case If(condition, thenBlock, elseBlock) =>
      var c :- Eval(condition, args, env);
      var (_, mem') :-
        RunBlock(w, m, if c != 0 then thenBlock else elseBlock, args, env, mem, grid, fuel);
      Done((env, mem'))
    case For(id, count, body) =>
      var n :- Eval(count, args, env);
      var mem' :- RunFor(w, m, id, body, 0, if n < 0 then 0 else n, args, env, mem, grid, fuel);
      Done((env, mem'))
  }

  /** Runs `n` iterations, the first of which has number `k`. */
  function RunFor(w: World, m: seq<Func>, id: nat, body: seq<Instr>, k: nat, n: nat, args: seq<int>,
                  env: map<nat, int>, mem: Memory, grid: Grid, fuel: nat): Outcome<Memory>
    decreases fuel, 1, body, n + 1
  {
    if n == 0 then Done(mem)
    else
      var (_, mem') :- RunBlock(w, m, body, args, env[id := k], mem, grid, fuel);
      RunFor(w, m, id, body, k + 1, n - 1, args, env, mem', grid, fuel)
  }

  /** The launch of a kernel, as SPMD programs are meant: the kernel runs for each point, with
      the point as its ambient position. */
  function Launch(w: World, m: seq<Func>, kernel: string, points: seq<Point>, numPrograms: Point,
                  args: seq<int>, mem: Memory, fuel: nat): Outcome<Memory>
    decreases points
  {
    if points == [] then Done(mem)
    else
      var grid := Grid(points[0], numPrograms);
      var (_, mem') :- RunFunc(w, m, kernel, args, Started(mem, Instance(kernel, grid, args)), grid, fuel);
      Launch(w, m, kernel, points[1..], numPrograms, args, mem', fuel)
  }

  // ----- Valid IR -----

  /** The ids that an instruction defines, including those in its regions. */
  function Defs(instr: Instr): set<nat>
    decreases instr
  {
    match instr
    case GetProgramId(id, _) => {id}
    case GetNumPrograms(id, _) => {id}
    case Compute(id, _, _) => {id}
    case Load(id, _) => {id}
    case Store(_, _) => {}
    case Call(ids, _, _) => set k | k in ids
    case If(_, thenBlock, elseBlock) => BlockDefs(thenBlock) + BlockDefs(elseBlock)
    case For(id, _, body) => {id} + BlockDefs(body)
  }

  function BlockDefs(block: seq<Instr>): set<nat>
    decreases block
  {
    if block == [] then {} else Defs(block[0]) + BlockDefs(block[1..])
  }

  /** No id is defined by two instructions. */
  predicate Ssa(instr: Instr)
    decreases instr
  {
    match instr
    case If(_, thenBlock, elseBlock) =>
      BlockSsa(thenBlock) && BlockSsa(elseBlock) && BlockDefs(thenBlock) !! BlockDefs(elseBlock)
    case For(id, _, body) => BlockSsa(body) && id !in BlockDefs(body)
    case _ => true
  }

  predicate BlockSsa(block: seq<Instr>)
    decreases block
  {
    block != [] ==>
      Ssa(block[0]) && BlockSsa(block[1..]) && Defs(block[0]) !! BlockDefs(block[1..])
  }

  /** The calls in an instruction, including those in its regions. */
  function Calls(instr: Instr): set<(string, nat, nat)>
    decreases instr
  {
    match instr
    case Call(ids, callee, operands) => {(callee, |operands|, |ids|)}
    case If(_, thenBlock, elseBlock) => BlockCalls(thenBlock) + BlockCalls(elseBlock)
    case For(_, _, body) => BlockCalls(body)
    case _ => {}
  }

  function BlockCalls(block: seq<Instr>): set<(string, nat, nat)>
    decreases block
  {
    if block == [] then {} else Calls(block[0]) + BlockCalls(block[1..])
  }

  /** Callee, number of operands and number of results of every call of a function. */
  function CallsOf(f: Func): set<(string, nat, nat)> {
    match f.body
    case External => {}
    case Internal(block, _) => BlockCalls(block)
    case GridDriver(loop) => {(loop.kernel, |loop.callArgs|, 0)}
  }

  predicate DistinctNames(m: seq<Func>) {
    forall i, j | 0 <= i < j < |m| :: m[i].name != m[j].name
  }

  /** A call matches the signature of its callee. */
  predicate CallMatches(m: seq<Func>, call: (string, nat, nat)) {
    var f := Find(m, call.0);
    f.Done? && f.value.numParams == call.1 && f.value.numResults == call.2
  }

  predicate CallsMatch(m: seq<Func>) {
    forall i | 0 <= i < |m| :: forall c | c in CallsOf(m[i]) :: CallMatches(m, c)
  }

  predicate CallsOnlyInternal(m: seq<Func>) {
    forall i | 0 <= i < |m| :: forall c | c in CallsOf(m[i]) ::
      var f := Find(m, c.0);
      f.Done? && !f.value.body.External?
  }

  /** A module as the pass gets it: verified, and without grid functions. */
  predicate ValidModule(m: seq<Func>) {
    && DistinctNames(m) && CallsMatch(m)
    && forall i | 0 <= i < |m| ::
         && !m[i].body.GridDriver?
         && (m[i].body.Internal? ==> BlockSsa(m[i].body.block) && |m[i].body.results| == m[i].numResults)
  }
}
