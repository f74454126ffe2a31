/** Execution of the generated functions, and of the code that drives them.

    Calls go through the symbol table. Every execution returns the log of what it did, so that
    contracts can speak about whole runs. The ghost parameters tell which op the called symbol
    belongs to; they do not influence the execution. */
module IteratorExecution {
  import opened Sequences
  import opened Values
  import opened Streams
  import opened IteratorOps
  import opened IteratorLowering
  import opened StreamMeaning

  datatype Event =
    | Opened(symbol: string)
    | Advanced(symbol: string)
    | Closed(symbol: string)
    | Applied(args: seq<Value>)   // a predicate, map or reduce function was called
    | Printed(value: Value)
    | PrintedEnd

  type Log = seq<Event>

  predicate OnlyOpens(log: Log) {
    forall e | e in log :: e.Opened?
  }

  predicate OnlyCloses(log: Log) {
    forall e | e in log :: e.Closed?
  }

  /** Calls of the given `next` functions, of user functions and of the printer; if `clean`, none
      of the latter two has been given an undefined value. */
  predicate OnlySteps(log: Log, nexts: set<string>, clean: bool) {
    forall e | e in log ::
      || (e.Advanced? && e.symbol in nexts)
      || (e.Applied? && (clean ==> AllDefined(e.args)))
      || (e.Printed? && (clean ==> Defined(e.value)))
  }

  predicate PrintsNothing(log: Log) {
    forall e | e in log :: !e.Printed?
  }

  /** The values printed, in order. */
  function Output(log: Log): seq<Value> {
    if log == [] then []
    else (if log[0].Printed? then [log[0].value] else []) + Output(log[1..])
  }

  lemma {:induction false} OutputConcat(a: Log, b: Log)
    ensures Output(a + b) == Output(a) + Output(b)
    decreases a
  {
    var all := a + b;
    if a == [] {
      assert all == b && [] + Output(b) == Output(b);
    } else {
      assert all[0] == a[0] && all[1..] == a[1..] + b;
      OutputConcat(a[1..], b);
      ConcatAssociates(if a[0].Printed? then [a[0].value] else [], Output(a[1..]), Output(b));
    }
  }

  lemma NoOutput(log: Log)
    requires PrintsNothing(log)
    ensures Output(log) == []
  {
  }

  lemma OutputStep(log: Log, stepLog: Log, element: Value)
    requires PrintsNothing(stepLog)
    ensures Output(log + stepLog) == Output(log)
    ensures Output(log + stepLog + [Printed(element)]) == Output(log) + [element]
  {
    NoOutput(stepLog);
    OutputConcat(log, stepLog);
    OutputConcat(log + stepLog, [Printed(element)]);
  }

  /** The symbols of the `next` functions of the op at `i` and of all ops upstream of it. */
  ghost function UpstreamNexts(ops: seq<Op>, infos: seq<IteratorInfo>, i: nat): set<string>
    requires Valid(ops) && |infos| == |ops| && i < |ops|
  {
    set j | 0 <= j < |ops| && Reaches(ops, i, j) :: infos[j].nextFunc
  }

  /** What a call of `next` on the op at `i` may do. */
  ghost predicate StepsOf(ops: seq<Op>, infos: seq<IteratorInfo>, i: nat, log: Log)
    requires Valid(ops) && |infos| == |ops| && i < |ops|
  {
    OnlySteps(log, UpstreamNexts(ops, infos, i), DefinedSources(ops)) && PrintsNothing(log)
  }

  lemma StepsConcat(ops: seq<Op>, infos: seq<IteratorInfo>, i: nat, a: Log, b: Log)
    requires Valid(ops) && |infos| == |ops| && i < |ops|
    requires StepsOf(ops, infos, i, a) && StepsOf(ops, infos, i, b)
    ensures StepsOf(ops, infos, i, a + b)
  {
    hide DefinedSources, UpstreamNexts;
  }

  lemma StepsApplied(ops: seq<Op>, infos: seq<IteratorInfo>, i: nat, a: Log, args: seq<Value>)
    requires Valid(ops) && |infos| == |ops| && i < |ops|
    requires StepsOf(ops, infos, i, a) && (DefinedSources(ops) ==> AllDefined(args))
    ensures StepsOf(ops, infos, i, a + [Applied(args)])
  {
    hide DefinedSources, UpstreamNexts;
  }

  lemma NoSteps(ops: seq<Op>, infos: seq<IteratorInfo>, i: nat)
    requires Valid(ops) && |infos| == |ops| && i < |ops|
    ensures StepsOf(ops, infos, i, [])
  {
  }

  /** The call itself is a step of the op. */
  lemma OwnStep(ops: seq<Op>, infos: seq<IteratorInfo>, i: nat, log: Log)
    requires Valid(ops) && |infos| == |ops| && i < |ops| && StepsOf(ops, infos, i, log)
    ensures StepsOf(ops, infos, i, [Advanced(infos[i].nextFunc)] + log)
  {
    hide DefinedSources;
    assert Reaches(ops, i, i) && infos[i].nextFunc in UpstreamNexts(ops, infos, i);
  }

  /** Steps of an input are steps of the op. */
  lemma UpstreamSteps(ops: seq<Op>, infos: seq<IteratorInfo>, i: nat, k: nat, log: Log)
    requires Valid(ops) && |infos| == |ops| && i < |ops| && k < |Inputs(ops[i])|
    requires StepsOf(ops, infos, Inputs(ops[i])[k], log)
    ensures StepsOf(ops, infos, i, log)
  {
    hide DefinedSources;
    var input := Inputs(ops[i])[k];
    forall j | 0 <= j < |ops| && Reaches(ops, input, j)
      ensures Reaches(ops, i, j)
    {
    }
    assert UpstreamNexts(ops, infos, input) <= UpstreamNexts(ops, infos, i);
  }

  /** In the log of a call of `open` on the op at `i`, the op at `j` is opened once per path. */
  ghost predicate OpensPaths(ops: seq<Op>, infos: seq<IteratorInfo>, i: nat, log: Log)
    requires Valid(ops) && |infos| == |ops| && i < |ops|
  {
    forall j | 0 <= j < |ops| :: multiset(log)[Opened(infos[j].openFunc)] == Paths(ops, i, j)
  }

  ghost predicate ClosesPaths(ops: seq<Op>, infos: seq<IteratorInfo>, i: nat, log: Log)
    requires Valid(ops) && |infos| == |ops| && i < |ops|
  {
    forall j | 0 <= j < |ops| :: multiset(log)[Closed(infos[j].closeFunc)] == Paths(ops, i, j)
  }

  lemma PathsViaStep(ops: seq<Op>, i: nat, k: nat)
    requires Valid(ops) && i < |ops| && k < |Inputs(ops[i])|
    ensures forall j: nat ::
              PathsVia(ops, i, j, k + 1) == PathsVia(ops, i, j, k) + Paths(ops, Inputs(ops[i])[k], j)
  {
  }

  lemma NoPathsVia(ops: seq<Op>, i: nat)
    requires Valid(ops) && i < |ops|
    ensures forall j: nat :: PathsVia(ops, i, j, 0) == 0
  {
  }

  /** The paths via the only input of an op. */
  lemma PathsViaInput(ops: seq<Op>, i: nat)
    requires Valid(ops) && i < |ops| && |Inputs(ops[i])| == 1
    ensures forall j: nat :: PathsVia(ops, i, j, 1) == Paths(ops, Inputs(ops[i])[0], j)
  {
    forall j: nat
      ensures PathsVia(ops, i, j, 1) == Paths(ops, Inputs(ops[i])[0], j)
    {
      assert PathsVia(ops, i, j, 0) == 0;
    }
  }

  lemma OpensPathsIntro(ops: seq<Op>, infos: seq<IteratorInfo>, i: nat, upLog: Log)
    requires Valid(ops) && |infos| == |ops| && i < |ops| && DistinctSymbols(infos)
    requires forall j | 0 <= j < |ops| ::
               multiset(upLog)[Opened(infos[j].openFunc)] == PathsVia(ops, i, j, |Inputs(ops[i])|)
    ensures OpensPaths(ops, infos, i, [Opened(infos[i].openFunc)] + upLog)
  {
    var log := [Opened(infos[i].openFunc)] + upLog;
    forall j | 0 <= j < |ops|
      ensures multiset(log)[Opened(infos[j].openFunc)] == Paths(ops, i, j)
    {
      SymbolsDiffer(infos, i, j);
      assert multiset(log) == multiset{Opened(infos[i].openFunc)} + multiset(upLog);
    }
  }

  lemma ClosesPathsIntro(ops: seq<Op>, infos: seq<IteratorInfo>, i: nat, upLog: Log)
    requires Valid(ops) && |infos| == |ops| && i < |ops| && DistinctSymbols(infos)
    requires forall j | 0 <= j < |ops| ::
               multiset(upLog)[Closed(infos[j].closeFunc)] == PathsVia(ops, i, j, |Inputs(ops[i])|)
    ensures ClosesPaths(ops, infos, i, [Closed(infos[i].closeFunc)] + upLog)
  {
    var log := [Closed(infos[i].closeFunc)] + upLog;
    forall j | 0 <= j < |ops|
      ensures multiset(log)[Closed(infos[j].closeFunc)] == Paths(ops, i, j)
    {
      SymbolsDiffer(infos, i, j);
      assert multiset(log) == multiset{Closed(infos[i].closeFunc)} + multiset(upLog);
    }
  }

  lemma SymbolsDiffer(infos: seq<IteratorInfo>, i: nat, j: nat)
    requires i < |infos| && j < |infos| && DistinctSymbols(infos)
    ensures i != j ==> infos[i].openFunc != infos[j].openFunc
    ensures i != j ==> infos[i].closeFunc != infos[j].closeFunc
  {
    if i != j {
      var a, b := if i < j then i else j, if i < j then j else i;
      assert SymbolsOf(infos[a]) !! SymbolsOf(infos[b]);
      assert infos[a].openFunc in SymbolsOf(infos[a]) && infos[b].openFunc in SymbolsOf(infos[b]);
      assert infos[a].closeFunc in SymbolsOf(infos[a]) && infos[b].closeFunc in SymbolsOf(infos[b]);
    }
  }

  function ExtractValue(st: Value, k: nat): Value
    requires st.State? && k < |st.fields|
  {
    st.fields[k]
  }

  function InsertValue(st: Value, k: nat, v: Value): Value
    requires st.State? && k < |st.fields|
  {
    State(st.fields[k := v])
  }

  // ----- Open -----

  method CallOpen(funcs: SymbolTable, symbol: string, st: Value,
                  ghost ops: seq<Op>, ghost infos: seq<IteratorInfo>, ghost i: nat)
    returns (st': Value, log: Log)
    requires Linked(ops, infos, funcs) && i < |ops| && symbol == infos[i].openFunc
    requires Typed(ops, i, st)
    ensures Ready(ops, i, st') && Remaining(ops, i, st') == Delivered(ops, i)
    ensures Fits(ops, i) ==> Remaining(ops, i, st') == Denote(ops, i)
    ensures ops[i].Zip? ==> RemainingOfInputs(ops, i, st') == DeliveredByInputs(ops, i)
    ensures OnlyOpens(log) && OpensPaths(ops, infos, i, log)
    decreases i, 1
  {
    hide Typed, Ready, Remaining, Delivered, Denote, Paths, OpensPaths, DistinctSymbols, Fits;
    assert LinkedAt(ops, infos, funcs, i);
    var func := funcs[symbol];
    var upLog := [];
    if func.op.Zip? {
      st', upLog := OpenUpstreams(funcs, func, st, ops, infos, i);
    } else if func.op.Filter? || func.op.Map? || func.op.Reduce? {
      st', upLog := OpenUpstream(funcs, func, st, ops, infos, i);
    } else {
      st' := OpenSource(func.op, st, ops, i);
    }
    OpensPathsIntro(ops, infos, i, upLog);
    log := [Opened(symbol)] + upLog;
    if Fits(ops, i) {
      FittingStreamsAreDelivered(ops, i);
    }
  }

  method OpenSource(op: Op, st: Value, ghost ops: seq<Op>, ghost i: nat) returns (st': Value)
    requires Valid(ops) && i < |ops| && op == ops[i] && Inputs(op) == [] && Typed(ops, i, st)
    ensures Ready(ops, i, st') && Remaining(ops, i, st') == Delivered(ops, i)
  {
    if op.ValueToStream? {
      st' := InsertValue(st, 0, Bool(false));
    } else {
      st' := InsertValue(st, 0, Int(0));
    }
  }

  method OpenUpstream(funcs: SymbolTable, func: Func, st: Value,
                      ghost ops: seq<Op>, ghost infos: seq<IteratorInfo>, ghost i: nat)
    returns (st': Value, log: Log)
    requires Linked(ops, infos, funcs) && i < |ops| && Typed(ops, i, st)
    requires ops[i].Filter? || ops[i].Map? || ops[i].Reduce?
    requires func.op == ops[i] && func.upstreamInfos == UpstreamInfos(ops[i], infos[..i])
    ensures Ready(ops, i, st') && Remaining(ops, i, st') == Delivered(ops, i)
    ensures OnlyOpens(log)
    ensures forall j | 0 <= j < |ops| ::
              multiset(log)[Opened(infos[j].openFunc)] == PathsVia(ops, i, j, |Inputs(ops[i])|)
    decreases i, 0
  {
    hide Remaining, Ready, Typed, Paths, PathsVia, Delivered;
    InputsTyped(ops, i, st);
    var up;
    up, log := CallOpen(funcs, func.upstreamInfos[0].openFunc, ExtractValue(st, 0),
                        ops, infos, ops[i].input);
    st' := InsertValue(st, 0, up);
    InputDenotes(ops, i, st');
    PathsViaInput(ops, i);
  }

  /** An op over a freshly opened input is about to deliver its whole stream. */
  lemma InputDenotes(ops: seq<Op>, i: nat, st: Value)
    requires Valid(ops) && i < |ops| && (ops[i].Filter? || ops[i].Map? || ops[i].Reduce?)
    requires st.State? && |st.fields| == 1 && Ready(ops, ops[i].input, st.fields[0])
    requires Remaining(ops, ops[i].input, st.fields[0]) == Delivered(ops, ops[i].input)
    ensures Ready(ops, i, st) && Remaining(ops, i, st) == Delivered(ops, i)
  {
  }

  /** A zip of freshly opened inputs is about to deliver its whole stream. */
  lemma ZipDenotes(ops: seq<Op>, i: nat, st: Value)
    requires Valid(ops) && i < |ops| && ops[i].Zip? && Ready(ops, i, st)
    requires forall k | 0 <= k < |ops[i].inputs| ::
               && k < |st.fields| && Ready(ops, ops[i].inputs[k], st.fields[k])
               && Remaining(ops, ops[i].inputs[k], st.fields[k]) == Delivered(ops, ops[i].inputs[k])
    ensures RemainingOfInputs(ops, i, st) == DeliveredByInputs(ops, i)
    ensures Remaining(ops, i, st) == Delivered(ops, i)
  {
    var inputs := ops[i].inputs;
    assert RemainingOfInputs(ops, i, st)
        == seq(|inputs|, k requires 0 <= k < |inputs| => Delivered(ops, inputs[k]));
  }

  method OpenUpstreams(funcs: SymbolTable, func: Func, st: Value,
                       ghost ops: seq<Op>, ghost infos: seq<IteratorInfo>, ghost i: nat)
    returns (st': Value, log: Log)
    requires Linked(ops, infos, funcs) && i < |ops| && ops[i].Zip? && Typed(ops, i, st)
    requires func.op == ops[i] && func.upstreamInfos == UpstreamInfos(ops[i], infos[..i])
    ensures Ready(ops, i, st') && Remaining(ops, i, st') == Delivered(ops, i)
    ensures RemainingOfInputs(ops, i, st') == DeliveredByInputs(ops, i)
    ensures OnlyOpens(log)
    ensures forall j | 0 <= j < |ops| ::
              multiset(log)[Opened(infos[j].openFunc)] == PathsVia(ops, i, j, |Inputs(ops[i])|)
    decreases i, 0
  {
    hide Remaining, Ready, Typed, Paths, PathsVia, Delivered;
    InputsTyped(ops, i, st);
    NoPathsVia(ops, i);
    ghost var inputs := ops[i].inputs;
    st' := st;
    log := [];
    for k := 0 to |func.upstreamInfos|
      invariant st'.State? && |st'.fields| == |inputs|
      invariant forall n | 0 <= n < k :: Ready(ops, inputs[n], st'.fields[n])
      invariant forall n | 0 <= n < k ::
                  Remaining(ops, inputs[n], st'.fields[n]) == Delivered(ops, inputs[n])
      invariant forall n | k <= n < |inputs| :: st'.fields[n] == st.fields[n]
      invariant OnlyOpens(log)
      invariant forall j | 0 <= j < |ops| ::
                  multiset(log)[Opened(infos[j].openFunc)] == PathsVia(ops, i, j, k)
    {
      var up, upLog := CallOpen(funcs, func.upstreamInfos[k].openFunc, ExtractValue(st', k),
                                ops, infos, inputs[k]);
      st' := InsertValue(st', k, up);
      log := log + upLog;
      PathsViaStep(ops, i, k);
    }
    ZipReady(ops, i, st');
    ZipDenotes(ops, i, st');
  }

  // ----- Next -----

  /** If the op at `i` is a zip, `n` elements have been taken from each of its inputs, or as many
      as there are. */
  ghost predicate InputsAdvanced(ops: seq<Op>, i: nat, st: Value, st': Value, n: nat)
    requires Valid(ops) && i < |ops| && Ready(ops, i, st) && Ready(ops, i, st')
  {
    ops[i].Zip? ==>
      forall k | 0 <= k < |ops[i].inputs| ::
        RemainingOfInputs(ops, i, st')[k] == From(RemainingOfInputs(ops, i, st)[k], n)
  }

  lemma NothingAdvanced(ops: seq<Op>, i: nat, st: Value)
    requires Valid(ops) && i < |ops| && Ready(ops, i, st)
    ensures InputsAdvanced(ops, i, st, st, 0)
  {
  }

  lemma TailOfFrom(s: seq<Value>, n: nat)
    ensures Tail(From(s, n)) == From(s, n + 1)
  {
  }

  /** One more call. */
  lemma AdvancedOnce(ops: seq<Op>, i: nat, start: Value, st: Value, st': Value, n: nat)
    requires Valid(ops) && i < |ops| && Ready(ops, i, start) && Ready(ops, i, st) && Ready(ops, i, st')
    requires InputsAdvanced(ops, i, start, st, n)
    requires ops[i].Zip? ==>
               forall k | 0 <= k < |ops[i].inputs| ::
                 RemainingOfInputs(ops, i, st')[k] == Tail(RemainingOfInputs(ops, i, st)[k])
    ensures InputsAdvanced(ops, i, start, st', n + 1)
  {
    hide Ready, Remaining, From, Tail, RemainingOfInputs;
    if ops[i].Zip? {
      forall k | 0 <= k < |ops[i].inputs|
        ensures RemainingOfInputs(ops, i, st')[k] == From(RemainingOfInputs(ops, i, start)[k], n + 1)
      {
        TailOfFrom(RemainingOfInputs(ops, i, start)[k], n);
      }
    }
  }

  /** What a call of `next` on the op at `i` promises. */
  ghost predicate Steps(ops: seq<Op>, i: nat, st: Value, st': Value, hasNext: bool, element: Value)
    requires Valid(ops) && i < |ops| && Ready(ops, i, st)
  {
    && Ready(ops, i, st')
    && hasNext == (Remaining(ops, i, st) != [])
    && (hasNext ==> [element] + Remaining(ops, i, st') == Remaining(ops, i, st))
    && (!hasNext ==> Remaining(ops, i, st') == [])
  }

  method CallNext(funcs: SymbolTable, symbol: string, st: Value,
                  ghost ops: seq<Op>, ghost infos: seq<IteratorInfo>, ghost i: nat)
    returns (st': Value, hasNext: bool, element: Value, log: Log)
    requires Resolves(ops, infos, funcs) && i < |ops| && symbol == infos[i].nextFunc
    requires Ready(ops, i, st)
    ensures Steps(ops, i, st, st', hasNext, element)
    ensures ops[i].Zip? ==>
              forall k | 0 <= k < |ops[i].inputs| ::
                RemainingOfInputs(ops, i, st')[k] == Tail(RemainingOfInputs(ops, i, st)[k])
    ensures hasNext && DefinedSources(ops) ==> Defined(element)
    ensures StepsOf(ops, infos, i, log)
    decreases i, 1
  {
    assert LinkedAt(ops, infos, funcs, i);
    if DefinedSources(ops) {
      RemainingDefined(ops, i, st);
    }
    var func := funcs[symbol];
    var bodyLog := [];
    NoSteps(ops, infos, i);
    match func.op {
      case ConstantStream(rows) =>
        st', hasNext, element := NextConstant(rows, st, ops, i);
      case TabularViewToStream(columns) =>
        st', hasNext, element := NextView(columns, st, ops, i);
      case ValueToStream(v) =>
        hasNext := !ExtractValue(st, 0).b;
        element := ExtractValue(st, 1);
        st' := InsertValue(st, 0, Bool(true));
      case Filter(_, p) =>
        st', hasNext, element, bodyLog := NextFilter(funcs, func, st, ops, infos, i);
      case Map(_, f) =>
        st', hasNext, element, bodyLog := NextMap(funcs, func, st, ops, infos, i);
      case Reduce(_, g) =>
        st', hasNext, element, bodyLog := NextReduce(funcs, func, st, ops, infos, i);
      case Zip(_) =>
        st', hasNext, element, bodyLog := NextZip(funcs, func, st, ops, infos, i);
    }
    assert hasNext ==> element == Remaining(ops, i, st)[0];
    OwnStep(ops, infos, i, bodyLog);
    log := [Advanced(symbol)] + bodyLog;
  }

  /** An op with one input is ready exactly if its input is. */
  lemma OverInput(ops: seq<Op>, i: nat, st: Value)
    requires Valid(ops) && i < |ops| && (ops[i].Filter? || ops[i].Map? || ops[i].Reduce?)
    ensures Ready(ops, i, st) <==> st.State? && |st.fields| == 1 && Ready(ops, ops[i].input, st.fields[0])
    ensures Ready(ops, i, st) ==>
              var s := Remaining(ops, ops[i].input, st.fields[0]);
              && (ops[i].Filter? ==> Remaining(ops, i, st) == Filtered(ops[i].predicateRef, s))
              && (ops[i].Map? ==> Remaining(ops, i, st) == Mapped(ops[i].mapFuncRef, s))
              && (ops[i].Reduce? ==> Remaining(ops, i, st) == Reduced(ops[i].reduceFuncRef, s))
  {
  }

  method NextConstant(rows: seq<seq<Value>>, st: Value, ghost ops: seq<Op>, ghost i: nat)
    returns (st': Value, hasNext: bool, element: Value)
    requires Valid(ops) && i < |ops| && ops[i] == ConstantStream(rows) && Ready(ops, i, st)
    ensures Steps(ops, i, st, st', hasNext, element)
  {
    var currentIndex := ExtractValue(st, 0).i;
    hasNext := currentIndex < LastIndex(rows);
    if hasNext {
      assert currentIndex < |ConstantRows(rows)| <= |rows|;
      st' := InsertValue(st, 0, Int(WrapI32(currentIndex + 1)));
      element := Tuple(rows[currentIndex]);
    } else {
      st' := st;
      element := Tuple([Undef]);
    }
  }

  method NextView(columns: seq<seq<Value>>, st: Value, ghost ops: seq<Op>, ghost i: nat)
    returns (st': Value, hasNext: bool, element: Value)
    requires Valid(ops) && i < |ops| && ops[i] == TabularViewToStream(columns) && Ready(ops, i, st)
    ensures Steps(ops, i, st, st', hasNext, element)
    ensures hasNext ==>
              && element.Tuple? && |element.elements| == |columns|
              && forall j | 0 <= j < |columns| ::
                   st.fields[0].i < |columns[j]| && element.elements[j] == columns[j][st.fields[0].i]
  {
    var currentIndex := ExtractValue(st, 0).i;
    var view := ExtractValue(st, 1);
    hasNext := currentIndex < view.size;
    if hasNext {
      st' := InsertValue(st, 0, Int(currentIndex + 1));
      var cells: seq<Value> := [];
      for c := 0 to |view.columns|
        invariant |cells| == c
        invariant forall n | 0 <= n < c :: cells[n] == columns[n][currentIndex]
      {
        assert columns[c] in columns;
        cells := cells + [view.columns[c][currentIndex]];
      }
      element := Tuple(cells);
      assert cells == ViewRow(columns, currentIndex).elements;
    } else {
      st' := st;
      element := Tuple(seq(|view.columns|, _ => Undef));
    }
  }

  method NextFilter(funcs: SymbolTable, func: Func, st: Value,
                    ghost ops: seq<Op>, ghost infos: seq<IteratorInfo>, ghost i: nat)
    returns (st': Value, hasNext: bool, element: Value, log: Log)
    requires Resolves(ops, infos, funcs) && i < |ops| && ops[i].Filter? && Ready(ops, i, st)
    requires func.op == ops[i] && func.upstreamInfos == UpstreamInfos(ops[i], infos[..i])
    ensures Steps(ops, i, st, st', hasNext, element)
    ensures StepsOf(ops, infos, i, log)
    decreases i, 0, 1
  {
    hide Ready, Remaining, Typed, StepsOf, DefinedSources, Filtered;
    OverInput(ops, i, st);
    var up;
    up, hasNext, element, log := FilterLoop(funcs, func, ExtractValue(st, 0), ops, infos, i);
    FilteredNothing(ops[i].predicateRef);
    st' := InsertValue(st, 0, up);
    OverInput(ops, i, st');
  }

  lemma FilteredNothing(p: Value -> bool)
    ensures Filtered(p, []) == []
  {
  }

  /** Takes elements from the input until one matches or the input ends. */
  method FilterLoop(funcs: SymbolTable, func: Func, start: Value,
                    ghost ops: seq<Op>, ghost infos: seq<IteratorInfo>, ghost i: nat)
    returns (up: Value, hasNext: bool, element: Value, log: Log)
    requires Resolves(ops, infos, funcs) && i < |ops| && ops[i].Filter?
    requires func.op == ops[i] && func.upstreamInfos == UpstreamInfos(ops[i], infos[..i])
    requires Ready(ops, ops[i].input, start)
    ensures Ready(ops, ops[i].input, up)
    ensures var p, before, after := ops[i].predicateRef, Remaining(ops, ops[i].input, start),
                                    Remaining(ops, ops[i].input, up);
            && (hasNext ==> [element] + Filtered(p, after) == Filtered(p, before))
            && (!hasNext ==> Filtered(p, before) == [] && after == [])
    ensures StepsOf(ops, infos, i, log)
    decreases i, 0, 0
  {
    hide Remaining, Ready, DefinedSources, Defined, StepsOf;
    NoSteps(ops, infos, i);
    ghost var input := ops[i].input;
    var p := func.op.predicateRef;
    ghost var rest := Remaining(ops, input, start);
    ghost var goal := Filtered(p, rest);
    var again := true;
    up, hasNext, element, log := start, false, Undef, [];
    while again
      invariant Ready(ops, input, up) && rest == Remaining(ops, input, up)
      invariant StepsOf(ops, infos, i, log)
      invariant again ==> Filtered(p, rest) == goal
      invariant !again && hasNext ==> [element] + Filtered(p, rest) == goal
      invariant !again && !hasNext ==> goal == [] && rest == []
      decreases again, |rest|
    {
      var upLog;
      up, hasNext, element, upLog :=
        CallNext(funcs, func.upstreamInfos[0].nextFunc, up, ops, infos, input);
      UpstreamSteps(ops, infos, i, 0, upLog);
      StepsConcat(ops, infos, i, log, upLog);
      log := log + upLog;
      var isMatch := hasNext;
      if hasNext {
        assert rest[0] == element && rest[1..] == Remaining(ops, input, up);
        isMatch := p(element);
        StepsApplied(ops, infos, i, log, [element]);
        log := log + [Applied([element])];
      }
      again := hasNext && !isMatch;
      rest := Remaining(ops, input, up);
    }
  }

  method NextMap(funcs: SymbolTable, func: Func, st: Value,
                 ghost ops: seq<Op>, ghost infos: seq<IteratorInfo>, ghost i: nat)
    returns (st': Value, hasNext: bool, element: Value, log: Log)
    requires Resolves(ops, infos, funcs) && i < |ops| && ops[i].Map? && Ready(ops, i, st)
    requires func.op == ops[i] && func.upstreamInfos == UpstreamInfos(ops[i], infos[..i])
    ensures Steps(ops, i, st, st', hasNext, element)
    ensures StepsOf(ops, infos, i, log)
    decreases i, 0
  {
    hide Ready, Remaining, Typed, StepsOf, Defined;
    OverInput(ops, i, st);
    ghost var input := ops[i].input;
    ghost var was := Remaining(ops, input, st.fields[0]);
    var up;
    up, hasNext, element, log :=
      CallNext(funcs, func.upstreamInfos[0].nextFunc, ExtractValue(st, 0), ops, infos, input);
    UpstreamSteps(ops, infos, i, 0, log);
    if hasNext {
      assert was[0] == element && was[1..] == Remaining(ops, input, up);
      StepsApplied(ops, infos, i, log, [element]);
      log := log + [Applied([element])];
      element := func.op.mapFuncRef(element);
    } else {
      element := Undef;
    }
    st' := InsertValue(st, 0, up);
    OverInput(ops, i, st');
  }

  method NextReduce(funcs: SymbolTable, func: Func, st: Value,
                    ghost ops: seq<Op>, ghost infos: seq<IteratorInfo>, ghost i: nat)
    returns (st': Value, hasNext: bool, element: Value, log: Log)
    requires Resolves(ops, infos, funcs) && i < |ops| && ops[i].Reduce? && Ready(ops, i, st)
    requires func.op == ops[i] && func.upstreamInfos == UpstreamInfos(ops[i], infos[..i])
    ensures Steps(ops, i, st, st', hasNext, element)
    ensures StepsOf(ops, infos, i, log)
    decreases i, 0, 1
  {
    hide Ready, Remaining, Typed, StepsOf, DefinedSources;
    OverInput(ops, i, st);
    ghost var input := ops[i].input;
    ghost var was := Remaining(ops, input, st.fields[0]);
    var up;
    up, hasNext, element, log :=
      CallNext(funcs, func.upstreamInfos[0].nextFunc, ExtractValue(st, 0), ops, infos, input);
    UpstreamSteps(ops, infos, i, 0, log);
    if hasNext {
      assert was[0] == element && was[1..] == Remaining(ops, input, up);
      var loopLog;
      up, element, loopLog := ReduceLoop(funcs, func, up, element, ops, infos, i);
      StepsConcat(ops, infos, i, log, loopLog);
      log := log + loopLog;
    }
    st' := InsertValue(st, 0, up);
    OverInput(ops, i, st');
  }

  /** Folds all remaining elements of the input into the accumulator. */
  method ReduceLoop(funcs: SymbolTable, func: Func, start: Value, first: Value,
                    ghost ops: seq<Op>, ghost infos: seq<IteratorInfo>, ghost i: nat)
    returns (up: Value, accumulator: Value, log: Log)
    requires Resolves(ops, infos, funcs) && i < |ops| && ops[i].Reduce?
    requires func.op == ops[i] && func.upstreamInfos == UpstreamInfos(ops[i], infos[..i])
    requires Ready(ops, ops[i].input, start)
    requires DefinedSources(ops) ==> Defined(first)
    ensures Ready(ops, ops[i].input, up) && Remaining(ops, ops[i].input, up) == []
    ensures accumulator
         == FoldLeft(ops[i].reduceFuncRef, first, Remaining(ops, ops[i].input, start))
    ensures StepsOf(ops, infos, i, log)
    decreases i, 0, 0
  {
    assert DefinedSources(ops) ==> DefinedSource(ops[i]);
    hide Remaining, Ready, DefinedSources, Defined, StepsOf;
    NoSteps(ops, infos, i);
    ghost var input := ops[i].input;
    var g := func.op.reduceFuncRef;
    up, accumulator, log := start, first, [];
    ghost var rest := Remaining(ops, input, start);
    ghost var goal := FoldLeft(g, first, rest);
    var hasNext := true;
    while hasNext
      invariant Ready(ops, input, up) && rest == Remaining(ops, input, up)
      invariant StepsOf(ops, infos, i, log)
      invariant DefinedSources(ops) ==> Defined(accumulator)
      invariant FoldLeft(g, accumulator, rest) == goal
      invariant !hasNext ==> rest == []
      decreases hasNext, |rest|
    {
      var element, upLog;
      up, hasNext, element, upLog :=
        CallNext(funcs, func.upstreamInfos[0].nextFunc, up, ops, infos, input);
      UpstreamSteps(ops, infos, i, 0, upLog);
      StepsConcat(ops, infos, i, log, upLog);
      log := log + upLog;
      if hasNext {
        assert rest[0] == element && rest[1..] == Remaining(ops, input, up);
        StepsApplied(ops, infos, i, log, [accumulator, element]);
        log := log + [Applied([accumulator, element])];
        accumulator := g(accumulator, element);
      }
      rest := Remaining(ops, input, up);
    }
  }

  method NextZip(funcs: SymbolTable, func: Func, st: Value,
                 ghost ops: seq<Op>, ghost infos: seq<IteratorInfo>, ghost i: nat)
    returns (st': Value, hasNext: bool, element: Value, log: Log)
    requires Resolves(ops, infos, funcs) && i < |ops| && ops[i].Zip? && Ready(ops, i, st)
    requires func.op == ops[i] && func.upstreamInfos == UpstreamInfos(ops[i], infos[..i])
    ensures Steps(ops, i, st, st', hasNext, element)
    ensures forall k | 0 <= k < |ops[i].inputs| ::
              RemainingOfInputs(ops, i, st')[k] == Tail(RemainingOfInputs(ops, i, st)[k])
    ensures StepsOf(ops, infos, i, log)
    decreases i, 0
  {
    hide Remaining, Ready, DefinedSources, Zipped, StepsOf;
    NoSteps(ops, infos, i);
    ZipInputsReady(ops, i, st);
    ghost var inputs := ops[i].inputs;
    ghost var was := RemainingOfInputs(ops, i, st);
    st' := st;
    hasNext := true;
    log := [];
    var elements: seq<Value> := [];
    for k := 0 to |func.upstreamInfos|
      invariant st'.State? && |st'.fields| == |inputs| && |elements| == k
      invariant forall n | 0 <= n < k :: Ready(ops, inputs[n], st'.fields[n])
      invariant forall n | 0 <= n < k :: Remaining(ops, inputs[n], st'.fields[n]) == Tail(was[n])
      invariant forall n | 0 <= n < k :: was[n] != [] ==> elements[n] == was[n][0]
      invariant forall n | k <= n < |inputs| :: st'.fields[n] == st.fields[n]
      invariant hasNext == forall n | 0 <= n < k :: was[n] != []
      invariant StepsOf(ops, infos, i, log)
    {
      var up, upHasNext, upElement, upLog :=
        CallNext(funcs, func.upstreamInfos[k].nextFunc, ExtractValue(st', k), ops, infos, inputs[k]);
      hasNext := hasNext && upHasNext;
      elements := elements + [upElement];
      st' := InsertValue(st', k, up);
      UpstreamSteps(ops, infos, i, k, upLog);
      StepsConcat(ops, infos, i, log, upLog);
      log := log + upLog;
    }
    element := Tuple(elements);
    ZipReady(ops, i, st');
    ghost var now := RemainingOfInputs(ops, i, st');
    ZippedTails(was, now, elements);
  }

  /** Any number of calls of `next`: they deliver the remaining elements in order, and from then
      on report the end, again and again. Each call takes an element from every input of a zip, if
      there is one. */
  method CallNextRepeatedly(funcs: SymbolTable, infos: seq<IteratorInfo>, i: nat, start: Value, n: nat,
                            ghost ops: seq<Op>)
    returns (st: Value, flags: seq<bool>, elements: seq<Value>)
    requires Resolves(ops, infos, funcs) && i < |ops| && Ready(ops, i, start)
    ensures |flags| == |elements| == n
    ensures forall k | 0 <= k < n :: flags[k] == (k < |Remaining(ops, i, start)|)
    ensures forall k | 0 <= k < n && flags[k] :: elements[k] == Remaining(ops, i, start)[k]
    ensures Ready(ops, i, st) && Remaining(ops, i, st) == From(Remaining(ops, i, start), n)
    ensures InputsAdvanced(ops, i, start, st, n)
  {
    hide Remaining, Ready, StepsOf, DefinedSources, InputsAdvanced;
    NothingAdvanced(ops, i, start);
    ghost var all := Remaining(ops, i, start);
    st, flags, elements := start, [], [];
    for k := 0 to n
      invariant |flags| == |elements| == k
      invariant forall m | 0 <= m < k :: flags[m] == (m < |all|)
      invariant forall m | 0 <= m < k && flags[m] :: elements[m] == all[m]
      invariant Ready(ops, i, st) && Remaining(ops, i, st) == From(all, k)
      invariant InputsAdvanced(ops, i, start, st, k)
    {
      ghost var rest := From(all, k);
      var next, hasNext, element, _ := CallNext(funcs, infos[i].nextFunc, st, ops, infos, i);
      assert hasNext ==> rest[0] == element && rest[1..] == From(all, k + 1);
      AdvancedOnce(ops, i, start, st, next, k);
      st, flags, elements := next, flags + [hasNext], elements + [element];
    }
  }

  // ----- Close -----

  method CallClose(funcs: SymbolTable, symbol: string, st: Value,
                   ghost ops: seq<Op>, ghost infos: seq<IteratorInfo>, ghost i: nat)
    returns (st': Value, log: Log)
    requires Linked(ops, infos, funcs) && i < |ops| && symbol == infos[i].closeFunc
    requires Typed(ops, i, st)
    ensures st' == st
    ensures OnlyCloses(log) && ClosesPaths(ops, infos, i, log)
    decreases i, 1
  {
    assert LinkedAt(ops, infos, funcs, i);
    var func := funcs[symbol];
    var upLog := [];
    st' := st;
    if func.op.Zip? {
      st', upLog := CloseUpstreams(funcs, func, st, ops, infos, i);
    } else if func.op.Filter? || func.op.Map? || func.op.Reduce? {
      st', upLog := CloseUpstream(funcs, func, st, ops, infos, i);
    }
    ClosesPathsIntro(ops, infos, i, upLog);
    log := [Closed(symbol)] + upLog;
  }

  method CloseUpstream(funcs: SymbolTable, func: Func, st: Value,
                       ghost ops: seq<Op>, ghost infos: seq<IteratorInfo>, ghost i: nat)
    returns (st': Value, log: Log)
    requires Linked(ops, infos, funcs) && i < |ops| && Typed(ops, i, st)
    requires ops[i].Filter? || ops[i].Map? || ops[i].Reduce?
    requires func.op == ops[i] && func.upstreamInfos == UpstreamInfos(ops[i], infos[..i])
    ensures st' == st
    ensures OnlyCloses(log)
    ensures forall j | 0 <= j < |ops| ::
              multiset(log)[Closed(infos[j].closeFunc)] == PathsVia(ops, i, j, |Inputs(ops[i])|)
    decreases i, 0
  {
    var up;
    up, log := CallClose(funcs, func.upstreamInfos[0].closeFunc, ExtractValue(st, 0),
                         ops, infos, ops[i].input);
    st' := InsertValue(st, 0, up);
    PathsViaInput(ops, i);
  }

  method CloseUpstreams(funcs: SymbolTable, func: Func, st: Value,
                        ghost ops: seq<Op>, ghost infos: seq<IteratorInfo>, ghost i: nat)
    returns (st': Value, log: Log)
    requires Linked(ops, infos, funcs) && i < |ops| && ops[i].Zip? && Typed(ops, i, st)
    requires func.op == ops[i] && func.upstreamInfos == UpstreamInfos(ops[i], infos[..i])
    ensures st' == st
    ensures OnlyCloses(log)
    ensures forall j | 0 <= j < |ops| ::
              multiset(log)[Closed(infos[j].closeFunc)] == PathsVia(ops, i, j, |Inputs(ops[i])|)
    decreases i, 0
  {
    hide Typed, Paths, PathsVia;
    InputsTyped(ops, i, st);
    NoPathsVia(ops, i);
    ghost var inputs := ops[i].inputs;
    st' := st;
    log := [];
    for k := 0 to |func.upstreamInfos|
      invariant st' == st
      invariant OnlyCloses(log)
      invariant forall j | 0 <= j < |ops| ::
                  multiset(log)[Closed(infos[j].closeFunc)] == PathsVia(ops, i, j, k)
    {
      var up, upLog := CallClose(funcs, func.upstreamInfos[k].closeFunc, ExtractValue(st', k),
                                 ops, infos, inputs[k]);
      st' := InsertValue(st', k, up);
      log := log + upLog;
      PathsViaStep(ops, i, k);
    }
  }

  // ----- The ops that drive an iterator -----

  /** Opens come first, then steps, then closes; the op at `j` is opened and closed once per path
      from the driven op at `i`; and no step has been given an undefined value. */
  ghost predicate Lifecycle(ops: seq<Op>, infos: seq<IteratorInfo>, i: nat, log: Log)
    requires Valid(ops) && |infos| == |ops| && i < |ops|
  {
    exists a, b | 0 <= a <= b <= |log| ::
      && OnlyOpens(log[..a]) && OpensPaths(ops, infos, i, log[..a])
      && OnlySteps(log[a..b], UpstreamNexts(ops, infos, i), DefinedSources(ops))
      && OnlyCloses(log[b..]) && ClosesPaths(ops, infos, i, log[b..])
  }

  lemma LifecycleIntro(ops: seq<Op>, infos: seq<IteratorInfo>, i: nat, opens: Log, steps: Log, closes: Log)
    requires Valid(ops) && |infos| == |ops| && i < |ops|
    requires OnlyOpens(opens) && OpensPaths(ops, infos, i, opens)
    requires OnlySteps(steps, UpstreamNexts(ops, infos, i), DefinedSources(ops))
    requires OnlyCloses(closes) && ClosesPaths(ops, infos, i, closes)
    ensures Lifecycle(ops, infos, i, opens + steps + closes)
    ensures Output(opens + steps + closes) == Output(steps)
  {
    var log := opens + steps + closes;
    var a, b := |opens|, |opens + steps|;
    assert log[..a] == opens && log[a..b] == steps && log[b..] == closes;
    NoOutput(opens);
    NoOutput(closes);
    OutputConcat(opens, steps);
    OutputConcat(opens + steps, closes);
  }

  /** The consuming loop of the sink. */
  method Consume(infos: seq<IteratorInfo>, funcs: SymbolTable, i: nat, start: Value, ghost ops: seq<Op>)
    returns (st: Value, log: Log)
    requires Resolves(ops, infos, funcs) && i < |ops| && Ready(ops, i, start)
    ensures Ready(ops, i, st) && Remaining(ops, i, st) == []
    ensures Output(log) == Remaining(ops, i, start)
    ensures InputsAdvanced(ops, i, start, st, |Remaining(ops, i, start)| + 1)
    ensures OnlySteps(log, UpstreamNexts(ops, infos, i), DefinedSources(ops))
  {
    hide Remaining, Ready, DefinedSources, AllDefined, Defined, InputsAdvanced;
    NothingAdvanced(ops, i, start);
    st, log := start, [];
    ghost var total := Remaining(ops, i, start);
    ghost var rest := total;
    var more := true;
    while more
      invariant Ready(ops, i, st) && rest == Remaining(ops, i, st)
      invariant Output(log) + rest == total
      invariant !more ==> rest == []
      invariant InputsAdvanced(ops, i, start, st, |Output(log)| + if more then 0 else 1)
      invariant OnlySteps(log, UpstreamNexts(ops, infos, i), DefinedSources(ops))
      decreases more, |rest|
    {
      ghost var before := st;
      var element, stepLog;
      st, more, element, stepLog := CallNext(funcs, infos[i].nextFunc, st, ops, infos, i);
      AdvancedOnce(ops, i, start, before, st, |Output(log)|);
      OutputStep(log, stepLog, element);
      if more {
        assert Output(log) + rest == (Output(log) + [element]) + Remaining(ops, i, st);
        log := log + stepLog + [Printed(element)];
      } else {
        log := log + stepLog;
      }
      rest := Remaining(ops, i, st);
    }
  }

  // ----- What a drained zip leaves of its inputs -----

  /** The first `n` elements of each input, or as many as there are, have been taken. */
  ghost predicate InputsTaken(ops: seq<Op>, i: nat, st: Value, n: nat)
    requires Valid(ops) && i < |ops| && ops[i].Zip? && Ready(ops, i, st)
  {
    forall k | 0 <= k < |ops[i].inputs| :: RemainingOfInputs(ops, i, st)[k] == From(DeliveredByInputs(ops, i)[k], n)
  }

  /** Of every input, the elements beyond the length of the zip are still to come. */
  ghost predicate RemainderKept(ops: seq<Op>, i: nat, st: Value)
    requires Valid(ops) && i < |ops| && ops[i].Zip? && Ready(ops, i, st)
  {
    InputsTaken(ops, i, st, |Delivered(ops, i)|)
  }

  /** All inputs of a zip are equally long. */
  ghost predicate EqualLengths(ops: seq<Op>, i: nat)
    requires Valid(ops) && i < |ops| && ops[i].Zip?
  {
    var ss := DeliveredByInputs(ops, i);
    forall k | 0 <= k < |ss| :: |ss[k]| == |ss[0]|
  }

  lemma FromDiffers(s: seq<Value>, n: nat)
    ensures From(s, n) == From(s, n + 1) <==> |s| <= n
  {
    if n < |s| {
      assert |From(s, n)| == |s| - n;
    }
  }

  lemma ShortestIsAll(ss: seq<seq<Value>>)
    requires ss != []
    ensures (forall k | 0 <= k < |ss| :: |ss[k]| <= MinLength(ss)) <==> (forall k | 0 <= k < |ss| :: |ss[k]| == |ss[0]|)
  {
    var a :| 0 <= a < |ss| && MinLength(ss) == |ss[a]|;
  }

  /** A drained zip has taken one element too many from every longer input: the remainder of the
      inputs is kept exactly if all inputs are equally long. */
  lemma {:induction false} DrainedZip(ops: seq<Op>, i: nat, start: Value, st: Value)
    requires Valid(ops) && i < |ops| && ops[i].Zip? && Ready(ops, i, start) && Ready(ops, i, st)
    requires RemainingOfInputs(ops, i, start) == DeliveredByInputs(ops, i)
    requires InputsAdvanced(ops, i, start, st, |Delivered(ops, i)| + 1)
    ensures InputsTaken(ops, i, st, |Delivered(ops, i)| + 1)
    ensures RemainderKept(ops, i, st) <==> EqualLengths(ops, i)
  {
    hide Ready, Remaining, From, MinLength, RemainingOfInputs, DeliveredByInputs;
    var ss := DeliveredByInputs(ops, i);
    var n := |Delivered(ops, i)|;
    ZipLength(ops, i);
    forall k | 0 <= k < |ss|
      ensures From(ss[k], n) == From(ss[k], n + 1) <==> |ss[k]| <= n
    {
      FromDiffers(ss[k], n);
    }
    ShortestIsAll(ss);
  }

  lemma ZipLength(ops: seq<Op>, i: nat)
    requires Valid(ops) && i < |ops| && ops[i].Zip?
    ensures |Delivered(ops, i)| == MinLength(DeliveredByInputs(ops, i))
  {
  }

  /** A call of `next` on a zip leaves its inputs as they are exactly if all of them are exhausted. */
  lemma {:induction false} EndKeepsInputs(ops: seq<Op>, i: nat, st: Value, st': Value)
    requires Valid(ops) && i < |ops| && ops[i].Zip? && Ready(ops, i, st) && Ready(ops, i, st')
    requires forall k | 0 <= k < |ops[i].inputs| ::
               RemainingOfInputs(ops, i, st')[k] == Tail(RemainingOfInputs(ops, i, st)[k])
    ensures RemainingOfInputs(ops, i, st') == RemainingOfInputs(ops, i, st)
       <==> forall k | 0 <= k < |ops[i].inputs| :: RemainingOfInputs(ops, i, st)[k] == []
  {
    hide Ready, Remaining, RemainingOfInputs;
    var was, now := RemainingOfInputs(ops, i, st), RemainingOfInputs(ops, i, st');
    forall k | 0 <= k < |ops[i].inputs|
      ensures now[k] == was[k] <==> was[k] == []
    {
      assert was[k] != [] ==> |Tail(was[k])| == |was[k]| - 1;
    }
  }

  /** A zip of a stream of one element and one of two. */
  function UnequalZip(a: Value, b: seq<Value>, c: seq<Value>): seq<Op> {
    [ValueToStream(a), ConstantStream([b, c]), Zip([0, 1])]
  }

  lemma UnequalStreams(a: Value, b: seq<Value>, c: seq<Value>)
    requires !a.State?
    ensures var ops := UnequalZip(a, b, c);
            Valid(ops) && ops[2].Zip? && DeliveredByInputs(ops, 2) == [[a], [Tuple(b), Tuple(c)]]
  {
    var ops := UnequalZip(a, b, c);
    assert Delivered(ops, 0) == [a];
    assert Delivered(ops, 1) == [Tuple(b), Tuple(c)];
    assert DeliveredByInputs(ops, 2) == [[a], [Tuple(b), Tuple(c)]];
  }

  lemma ZipOfUnequal(a: Value, b: Value, c: Value)
    ensures Zipped([[a], [b, c]]) == [Tuple([a, b])]
  {
    var ss := [[a], [b, c]];
    assert MinLength(ss) == 1;
    assert Row(ss, 0).elements == [a, b];
  }

  /** A constant stream is delivered as denoted exactly if it fits an i32, and its head exactly if it
      is empty or its end is positive. */
  lemma ConstantDelivery(ops: seq<Op>, i: nat)
    requires Valid(ops) && i < |ops|
    ensures ops[i].ConstantStream? ==> (Delivered(ops, i) == Denote(ops, i) <==> |ops[i].rows| <= MAX_I32)
    ensures ops[i].ConstantStream? ==>
              ((Delivered(ops, i) != [] <==> Denote(ops, i) != [])
               && (Delivered(ops, i) != [] ==> Delivered(ops, i)[0] == Denote(ops, i)[0])
               <==> |ops[i].rows| == 0 || LastIndex(ops[i].rows) > 0)
  {
    if ops[i].ConstantStream? {
      ConstantStreamIsComplete(ops[i].rows);
    }
  }

  /** The lowered sink: prints the whole stream of its input, whatever typed state it starts in,
      and then the end-of-stream mark. That is the denoted stream if all constant streams fit an
      i32; a single constant stream must fit. */
  method RunSink(infos: seq<IteratorInfo>, funcs: SymbolTable, i: nat, initial: Value, ghost ops: seq<Op>)
    returns (final: Value, log: Log)
    requires Linked(ops, infos, funcs) && i < |ops| && Typed(ops, i, initial)
    ensures |log| > 0 && log[|log| - 1] == PrintedEnd
    ensures Output(log[..|log| - 1]) == Delivered(ops, i)
    ensures IsStreamOf(ops[i], InputsDelivered(ops, i), Output(log[..|log| - 1]))
    ensures Fits(ops, i) ==> Output(log[..|log| - 1]) == Denote(ops, i)
    ensures ops[i].ConstantStream? ==>
              (Output(log[..|log| - 1]) == Denote(ops, i) <==> |ops[i].rows| <= MAX_I32)
    ensures Lifecycle(ops, infos, i, log[..|log| - 1])
    ensures Ready(ops, i, final) && Remaining(ops, i, final) == []
    ensures ops[i].Zip? ==> InputsTaken(ops, i, final, |Delivered(ops, i)| + 1)
    ensures ops[i].Zip? ==> (RemainderKept(ops, i, final) <==> EqualLengths(ops, i))
  {
    hide Remaining, Ready, Typed, Delivered, Denote, Fits, IsStreamOf, InputsDelivered, InputsAdvanced, InputsTaken,
      RemainderKept, EqualLengths, Lifecycle, OpensPaths, ClosesPaths, DefinedSources;
    var st, openLog := CallOpen(funcs, infos[i].openFunc, initial, ops, infos, i);
    var runLog, closeLog;
    ghost var start := st;
    st, runLog := Consume(infos, funcs, i, st, ops);
    ReadyIsTyped(ops, i, st);
    final, closeLog := CallClose(funcs, infos[i].closeFunc, st, ops, infos, i);
    LifecycleIntro(ops, infos, i, openLog, runLog, closeLog);
    log := openLog + runLog + closeLog + [PrintedEnd];
    assert log[..|log| - 1] == openLog + runLog + closeLog;
    DeliveredStreams(ops, i);
    if ops[i].Zip? {
      DrainedZip(ops, i, start, final);
    }
    ConstantDelivery(ops, i);
  }

  /** A sink on a zip of one and two elements: the second element of the longer stream is consumed. */
  method SinkOnUnequalZip(symbols: set<string>, a: Value, b: seq<Value>, c: seq<Value>)
    returns (final: Value, log: Log)
    requires !a.State?
    ensures |log| > 0 && Output(log[..|log| - 1]) == [Tuple([a, Tuple(b)])]
    ensures var ops := UnequalZip(a, b, c);
            && Valid(ops) && Ready(ops, 2, final) && RemainingOfInputs(ops, 2, final) == [[], []]
            && !RemainderKept(ops, 2, final)
  {
    hide Ready, Remaining, Delivered, RemainderKept, Lifecycle, Fits, Linked, Typed;
    UnequalStreams(a, b, c);
    ZipOfUnequal(a, Tuple(b), Tuple(c));
    var ops := UnequalZip(a, b, c);
    var infos, funcs, mapping := ConvertIteratorOps(symbols, ops);
    ReadyIsTyped(ops, 2, mapping[2]);
    final, log := RunSink(infos, funcs, 2, mapping[2], ops);
    assert |Delivered(ops, 2)| == 1;
    assert From([a], 2) == [] && From([Tuple(b), Tuple(c)], 2) == [];
  }

  /** A sink on a reduction of two rows: the first row is the first argument. */
  method SinkOnReduce(symbols: set<string>, a: seq<Value>, b: seq<Value>, g: (Value, Value) -> Value)
    returns (log: Log)
    ensures |log| > 0 && Output(log[..|log| - 1]) == [g(Tuple(a), Tuple(b))]
  {
    var ops := [ConstantStream([a, b]), Reduce(0, g)];
    ghost var rows := [Tuple(a), Tuple(b)];
    assert Delivered(ops, 0) == rows;
    assert rows[1..] == [] + [Tuple(b)];
    FoldLeftSnoc(g, Tuple(a), [], Tuple(b));
    assert Delivered(ops, 1) == Reduced(g, rows);
    var infos;
    infos, log := LowerAndRun(symbols, ops, 1);
  }

  /** The lowered `stream_to_value`: the head of the stream, if there is one. */
  method RunStreamToValue(infos: seq<IteratorInfo>, funcs: SymbolTable, i: nat, initial: Value,
                          ghost ops: seq<Op>)
    returns (value: Value, hasValue: bool, log: Log)
    requires Linked(ops, infos, funcs) && i < |ops| && Typed(ops, i, initial)
    ensures hasValue <==> Delivered(ops, i) != []
    ensures hasValue ==> value == Delivered(ops, i)[0]
    ensures Fits(ops, i) ==> (hasValue <==> Denote(ops, i) != [])
    ensures Fits(ops, i) && hasValue ==> value == Denote(ops, i)[0]
    ensures ops[i].ConstantStream? ==>
              ((hasValue <==> Denote(ops, i) != []) && (hasValue ==> value == Denote(ops, i)[0])
               <==> |ops[i].rows| == 0 || LastIndex(ops[i].rows) > 0)
    ensures hasValue && DefinedSources(ops) ==> Defined(value)
    ensures Lifecycle(ops, infos, i, log)
  {
    hide Ready, Typed, Delivered, Denote, Fits, InputsAdvanced, Lifecycle, OpensPaths, ClosesPaths, DefinedSources;
    ConstantDelivery(ops, i);
    var st, openLog := CallOpen(funcs, infos[i].openFunc, initial, ops, infos, i);
    var stepLog;
    st, hasValue, value, stepLog := CallNext(funcs, infos[i].nextFunc, st, ops, infos, i);
    ReadyIsTyped(ops, i, st);
    var _, closeLog := CallClose(funcs, infos[i].closeFunc, st, ops, infos, i);
    log := openLog + stepLog + closeLog;
    LifecycleIntro(ops, infos, i, openLog, stepLog, closeLog);
  }

  /** The whole pass on a module with existing symbols, and then a run of a sink on any op. */
  method LowerAndRun(symbols: set<string>, ops: seq<Op>, i: nat)
    returns (infos: seq<IteratorInfo>, log: Log)
    requires Valid(ops) && i < |ops|
    ensures |infos| == |ops| && DistinctSymbols(infos)
    ensures |log| > 0 && Output(log[..|log| - 1]) == Delivered(ops, i)
    ensures IsStreamOf(ops[i], InputsDelivered(ops, i), Output(log[..|log| - 1]))
    ensures Fits(ops, i) ==> Output(log[..|log| - 1]) == Denote(ops, i)
    ensures ops[i].ConstantStream? ==>
              (Output(log[..|log| - 1]) == Denote(ops, i) <==> |ops[i].rows| <= MAX_I32)
    ensures Lifecycle(ops, infos, i, log[..|log| - 1])
  {
    var funcs, mapping, final;
    infos, funcs, mapping := ConvertIteratorOps(symbols, ops);
    ReadyIsTyped(ops, i, mapping[i]);
    final, log := RunSink(infos, funcs, i, mapping[i], ops);
  }
}
