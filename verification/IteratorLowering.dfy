/** The analysis of iterator ops and their conversion to open/next/close functions. */
module IteratorLowering {
  import opened Values
  import opened IteratorOps
  import opened NameAssigners

  datatype IteratorInfo = IteratorInfo(
    openFunc: string, nextFunc: string, closeFunc: string, stateType: Type)

  /** A generated function: what it does for which op, and whom it calls. */
  datatype Func =
    | OpenFunc(op: Op, upstreamInfos: seq<IteratorInfo>)
    | NextFunc(op: Op, upstreamInfos: seq<IteratorInfo>)
    | CloseFunc(op: Op, upstreamInfos: seq<IteratorInfo>)

  type SymbolTable = map<string, Func>

  function OpName(op: Op): string {
    match op
    case ConstantStream(_) => "iterators.constantstream"
    case Filter(_, _) => "iterators.filter"
    case Map(_, _) => "iterators.map"
    case Reduce(_, _) => "iterators.reduce"
    case TabularViewToStream(_) => "iterators.tabular_view_to_stream"
    case ValueToStream(_) => "iterators.value_to_stream"
    case Zip(_) => "iterators.zip"
  }

  function SymbolsOf(info: IteratorInfo): set<string> {
    {info.openFunc, info.nextFunc, info.closeFunc}
  }

  /** All symbols of all iterators differ from each other. */
  predicate DistinctSymbols(infos: seq<IteratorInfo>) {
    && (forall i | 0 <= i < |infos| ::
          && infos[i].openFunc != infos[i].nextFunc
          && infos[i].openFunc != infos[i].closeFunc
          && infos[i].nextFunc != infos[i].closeFunc)
    && (forall i, j | 0 <= i < j < |infos| :: SymbolsOf(infos[i]) !! SymbolsOf(infos[j]))
  }

  function UpstreamInfos(op: Op, infos: seq<IteratorInfo>): seq<IteratorInfo>
    requires ValidOp(op, |infos|)
  {
    seq(|Inputs(op)|, k requires 0 <= k < |Inputs(op)| => infos[Inputs(op)[k]])
  }

  /** The state type of an op whose upstream iterators have the given state types. */
  function ComputeStateType(op: Op, upstream: seq<Type>): Type {
    match op
    case ConstantStream(_) => StateType([I32])
    case Filter(_, _) => StateType(upstream)
    case Map(_, _) => StateType(upstream)
    case Reduce(_, _) => StateType(upstream)
    case TabularViewToStream(_) => StateType([I64, ViewType])
    case ValueToStream(_) => StateType([I1, ElementType])
    case Zip(_) => StateType(upstream)
  }

  /** The three functions of the op at `i` are in the table under the names of its info, and
      they call the functions of the infos of its inputs. */
  ghost predicate LinkedAt(ops: seq<Op>, infos: seq<IteratorInfo>, funcs: SymbolTable, i: nat)
    requires Valid(ops) && |infos| == |ops| && i < |ops|
  {
    var upstream := UpstreamInfos(ops[i], infos[..i]);
    && infos[i].openFunc in funcs && funcs[infos[i].openFunc] == OpenFunc(ops[i], upstream)
    && infos[i].nextFunc in funcs && funcs[infos[i].nextFunc] == NextFunc(ops[i], upstream)
    && infos[i].closeFunc in funcs && funcs[infos[i].closeFunc] == CloseFunc(ops[i], upstream)
  }

  ghost predicate Resolves(ops: seq<Op>, infos: seq<IteratorInfo>, funcs: SymbolTable) {
    && Valid(ops) && |infos| == |ops|
    && (forall i | 0 <= i < |ops| :: LinkedAt(ops, infos, funcs, i))
  }

  /** Every call resolves, no two iterators share a symbol, and the state types are right. */
  ghost predicate Linked(ops: seq<Op>, infos: seq<IteratorInfo>, funcs: SymbolTable) {
    && Resolves(ops, infos, funcs)
    && DistinctSymbols(infos)
    && (forall i | 0 <= i < |ops| :: infos[i].stateType == StateTypeOf(ops, i))
  }

  /** Assigns the three names of one op. */
  method AssignFunctionNames(op: Op, assigner: NameAssigner) returns (o: string, n: string, c: string)
    modifies assigner
    ensures {o, n, c} !! assigner.symbols && {o, n, c} !! old(assigner.names)
    ensures o != n && o != c && n != c
    ensures OpName(op) + ".open." <= o && OpName(op) + ".next." <= n && OpName(op) + ".close." <= c
    ensures assigner.names == old(assigner.names) + {o, n, c}
  {
    o := assigner.AssignName(OpName(op) + ".open");
    n := assigner.AssignName(OpName(op) + ".next");
    c := assigner.AssignName(OpName(op) + ".close");
  }

  lemma NoSymbols()
    ensures DistinctSymbols([])
  {
  }

  lemma DistinctExtended(infos: seq<IteratorInfo>, info: IteratorInfo)
    requires DistinctSymbols(infos)
    requires info.openFunc != info.nextFunc && info.openFunc != info.closeFunc
    requires info.nextFunc != info.closeFunc
    requires forall k | 0 <= k < |infos| :: SymbolsOf(infos[k]) !! SymbolsOf(info)
    ensures DistinctSymbols(infos + [info])
  {
  }

  lemma ComputedStateType(ops: seq<Op>, i: nat, upstream: seq<Type>)
    requires Valid(ops) && i < |ops| && |upstream| == |Inputs(ops[i])|
    requires forall k | 0 <= k < |upstream| :: upstream[k] == StateTypeOf(ops, Inputs(ops[i])[k])
    ensures ComputeStateType(ops[i], upstream) == StateTypeOf(ops, i)
  {
    if upstream != [] {
      assert StateTypeOf(ops, i).fieldTypes == upstream;
    }
  }

  /** Walks the ops in order; every lookup of an upstream info succeeds. */
  method Analyze(symbols: set<string>, ops: seq<Op>) returns (infos: seq<IteratorInfo>)
    requires Valid(ops)
    ensures |infos| == |ops| && DistinctSymbols(infos)
    ensures forall i | 0 <= i < |infos| :: SymbolsOf(infos[i]) !! symbols
    ensures forall i | 0 <= i < |infos| :: infos[i].stateType == StateTypeOf(ops, i)
  {
    hide DistinctSymbols, ComputeStateType, StateTypeOf;
    var assigner := new NameAssigner(symbols);
    infos := [];
    NoSymbols();
    for i := 0 to |ops|
      invariant assigner.symbols == symbols
      invariant |infos| == i && DistinctSymbols(infos)
      invariant forall k | 0 <= k < i :: SymbolsOf(infos[k]) <= assigner.names
      invariant forall k | 0 <= k < i :: SymbolsOf(infos[k]) !! symbols
      invariant forall k | 0 <= k < i :: infos[k].stateType == StateTypeOf(ops, k)
    {
      var op := ops[i];
      var inputs := Inputs(op);
      var upstreamTypes := seq(|inputs|, k requires 0 <= k < |inputs| => infos[inputs[k]].stateType);
      var o, n, c := AssignFunctionNames(op, assigner);
      var info := IteratorInfo(o, n, c, ComputeStateType(op, upstreamTypes));
      ComputedStateType(ops, i, upstreamTypes);
      DistinctExtended(infos, info);
      infos := infos + [info];
    }
  }

  /** The initial state of an op from its converted operands. */
  function BuildStateCreation(op: Op, mappedOperands: seq<Value>): Value
    requires ValidOp(op, |mappedOperands|)
  {
    match op
    case ConstantStream(_) => State([Int(0)])
    case TabularViewToStream(columns) => State([Int(0), MakeView(columns)])
    case ValueToStream(v) => State([Bool(false), v])
    case Filter(input, _) => State([mappedOperands[input]])
    case Map(input, _) => State([mappedOperands[input]])
    case Reduce(input, _) => State([mappedOperands[input]])
    case Zip(inputs) =>
      State(seq(|inputs|, k requires 0 <= k < |inputs| => mappedOperands[inputs[k]]))
  }

  /** Converts all ops in worklist order: each op gets its three functions and a state value
      that is built from the states its operands were mapped to. */
  method ConvertIteratorOps(symbols: set<string>, ops: seq<Op>)
    returns (infos: seq<IteratorInfo>, funcs: SymbolTable, mapping: seq<Value>)
    requires Valid(ops)
    ensures Linked(ops, infos, funcs)
    ensures funcs.Keys !! symbols
    ensures |mapping| == |ops|
    ensures forall i | 0 <= i < |ops| :: Ready(ops, i, mapping[i]) && Remaining(ops, i, mapping[i]) == Delivered(ops, i)
    ensures forall i | 0 <= i < |ops| :: HasType(mapping[i], infos[i].stateType)
  {
    hide Ready, Typed, Remaining, Delivered, DistinctSymbols, LinkedAt, BuildStateCreation, StateTypeOf;
    infos := Analyze(symbols, ops);
    funcs := map[];
    mapping := [];
    for i := 0 to |ops|
      invariant |mapping| == i
      invariant forall k | 0 <= k < i :: LinkedAt(ops, infos, funcs, k)
      invariant funcs.Keys !! symbols
      invariant forall k | 0 <= k < i :: Ready(ops, k, mapping[k]) && Remaining(ops, k, mapping[k]) == Delivered(ops, k)
    {
      var upstream := UpstreamInfos(ops[i], infos[..i]);
      ghost var before := funcs;
      funcs := funcs[infos[i].openFunc := OpenFunc(ops[i], upstream)];
      funcs := funcs[infos[i].nextFunc := NextFunc(ops[i], upstream)];
      funcs := funcs[infos[i].closeFunc := CloseFunc(ops[i], upstream)];
      LinkedExtended(ops, infos, before, funcs, i);
      InitialStateReady(ops, mapping);
      mapping := mapping + [BuildStateCreation(ops[i], mapping)];
    }
    forall i | 0 <= i < |ops|
      ensures HasType(mapping[i], infos[i].stateType)
    {
      ReadyIsTyped(ops, i, mapping[i]);
      TypedHasStateType(ops, i, mapping[i]);
    }
  }

  /** The state of an op over initial states is initial: the whole stream is still to come. */
  lemma {:induction false} InitialStateReady(ops: seq<Op>, mapping: seq<Value>)
    requires Valid(ops) && |mapping| < |ops|
    requires forall k | 0 <= k < |mapping| :: Ready(ops, k, mapping[k]) && Remaining(ops, k, mapping[k]) == Delivered(ops, k)
    ensures ValidOp(ops[|mapping|], |mapping|)
    ensures var st := BuildStateCreation(ops[|mapping|], mapping);
            Ready(ops, |mapping|, st) && Remaining(ops, |mapping|, st) == Delivered(ops, |mapping|)
  {
    var i := |mapping|;
    assert ValidOp(ops[i], i);
    if ops[i].Zip? {
      var st := BuildStateCreation(ops[i], mapping);
      assert forall k | 0 <= k < |st.fields| :: st.fields[k] == mapping[ops[i].inputs[k]];
      ZipReady(ops, i, st);
      assert RemainingOfInputs(ops, i, st) == DeliveredByInputs(ops, i);
    }
  }

  /** The functions of the op at `i` do not replace those of earlier ops. */
  lemma {:induction false} LinkedExtended(ops: seq<Op>, infos: seq<IteratorInfo>, before: SymbolTable, funcs: SymbolTable, i: nat)
    requires Valid(ops) && |infos| == |ops| && i < |ops| && DistinctSymbols(infos)
    requires forall k | 0 <= k < i :: LinkedAt(ops, infos, before, k)
    requires var upstream := UpstreamInfos(ops[i], infos[..i]);
             funcs == before[infos[i].openFunc := OpenFunc(ops[i], upstream)]
                            [infos[i].nextFunc := NextFunc(ops[i], upstream)]
                            [infos[i].closeFunc := CloseFunc(ops[i], upstream)]
    ensures forall k | 0 <= k < i + 1 :: LinkedAt(ops, infos, funcs, k)
  {
    forall k | 0 <= k < i
      ensures LinkedAt(ops, infos, funcs, k)
    {
      assert LinkedAt(ops, infos, before, k);
      assert SymbolsOf(infos[k]) !! SymbolsOf(infos[i]);
      assert {infos[k].openFunc, infos[k].nextFunc, infos[k].closeFunc} == SymbolsOf(infos[k]);
    }
  }
}
