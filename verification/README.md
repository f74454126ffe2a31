# A Dafny model of the Structured dialects, Triton lowerings and Jasc

The project models the compiler passes that do the most work in the repository and proves that
they preserve meaning. Each part is a group of modules, one file per module.

**Volcano iterators** (`Values`, `Streams`, `IteratorOps`, `StreamMeaning`, `NameAssigners`,
`IteratorLowering`, `IteratorExecution`, `IteratorTrees`). Seven stream ops (constant, filter, map, reduce, tabular
view, value, zip) are analysed, get three uniquely named functions each, and a nested initial
state. The generated open/next/close functions are executed through the symbol table. `Denote` is
the mathematical stream of an op; it is defined without states, and with all rows of constant
streams. `Delivered` differs from it in constant streams whose length does not fit an `i32`. The
central invariant is `Remaining`: what is still to come in a state. Every `next` takes exactly one
element off it, so all generated loops terminate, the end is sticky, and a sink prints exactly what
is delivered; where all constant streams fit, that is the denoted stream. A log of each run shows that iterators are opened before they are advanced and closed afterwards, and
that no undefined value reaches a user function or the printer.

**State representations** (`StateLayout`, `StatePrograms`, `StateMaterialization`). Programs of
create/extract/insert ops run on nested states, on flat lists of leaves, and on LLVM structs; the
three runs agree. The two materializations of the decomposition are modelled as they are written.

**SPMD elimination** (`SpmdPrograms`, `SpmdConversion`, `SpmdCorrectness`, `SpmdGrids`,
`SpmdSafety`, `SpmdVerification`). An interpreter gives modules with calls, branches, loops and memory an ambient
position in a grid. The pass, phase by phase, threads that position through six new arguments and
adds grid functions, whose bodies are parallel loops with bounds, steps and call arguments. The
world may run the iterations of a loop in any order. Converted functions behave the same at every
call depth; calling `k_grid` is launching `k`, and a record of the started program instances shows
that every point of the grid is run exactly once. Fuel bounds the call depth of the interpreter only; the
theorems hold for every amount of fuel, so a run that never ends never ends after the conversion.

**Tag regions** (`TagRegions`, `TagInlining`, `TagLowering`, `TagValidity`, `Tagging`). Region by region inlining
with replacement of uses is a single substitution over the tree, and keeps every executed op, its
operand values and its order; the result is valid IR again. Tags are the names of the enclosing regions, innermost first, and
`match_tag` selects by prefix.

**The kernel cache** (`KernelCache`). The launcher's key against what the compiler is given, and
the cache over any sequence of launches.

**Tensors, indices and memory** (`Shapes`, `Broadcast`, `ElementwiseMemory`, `Memrefs`, `Arange`,
`GatherDims`). Reassociation of broadcast dimensions, element-wise stores and atomics, row-major
strides and packed kernel arguments, `arange`, and the dimensions that advanced indexing gathers.
`Wrappers`, `Sequences` and `Cells` hold what several modules share.

## Where the code does not do what one would expect

For each of these there are theorems that say what the code does and, where an expected property fails,
exactly when it holds.

- A constant stream keeps its end in an `i32`: a sink on it prints all rows if and only if there are
  at most 2^31 - 1 of them (`RunSink`, `ConstantStreamIsComplete`); with 2^31 rows it prints nothing
  (`TooManyRows`). For other ops it is enough that all upstream constant streams fit
  (`FittingStreamsAreDelivered`), but it is not necessary (`RejectedRowsNeedNotFit`). The head of a
  constant stream is right if and only if there are no rows or the wrapped end is positive
  (`RunStreamToValue`, `WrappedRows`).
- The documentation of `zip` (include/structured/Dialect/Iterators/IR/IteratorsOps.td:440-446) says
  that the remainder of the longer inputs is not consumed. The code advances every input on every
  call, also on the one that finds the end: a drained zip keeps the remainder if and only if all
  inputs are equally long (`DrainedZip`, `RunSink`), and a single call leaves the inputs as they are
  if and only if all of them are exhausted (`EndKeepsInputs`). `SinkOnUnequalZip` is a run that
  consumes the remainder.
- The documentation of `reduce` leaves the order of the reduction open. The code folds from the
  left, and the model says so (`NextReduce`).
- `buildCreateStateOp` never advances its cursor, so every leaf of the created state is a copy of
  the first input. The round trip through it works for all states of a type if and only if the
  type has at most one leaf (`CreateInvertsExtract`, `CreateAfterExtract`); with a moving cursor it
  always works (`RebuildLeaves`, `LeavesRebuild`).
- Calls get six more operands whether or not the callee is external, but external functions do not
  get the arguments; and `k_grid` may clash with an existing symbol. The converted module is verified
  IR if and only if neither happens (`ConvertedModulePasses`, `ExternalCalleeDoesNotPass`,
  `TakenGridNameDoesNotPass`).
- The launcher's key skips a parameter by its rank among the regular parameters, the compiler by
  its position: the key determines the kernel if and only if every parameter skipped by rank is
  also skipped by position (`KeyDeterminesKernelIffCoherent`, `SkippedByRank`,
  `LaunchSkippedByRank`). Python takes `0`,
  `0.0`, `-0.0` and `False` for the same constexpr value (`ZeroIsNotFalse`, `ZeroIsNotNegativeZero`,
  `LaunchZeroAndFalse`, `EqualKeysCompileTheSame`). The second of two launches with equal keys gets
  the right kernel if and only if both compile from the same inputs (`LaunchTwice`).
- `getARangeLen` is the number of values if and only if the range is not empty by a full step
  (`LengthIsNumberOfValues`); it is negative otherwise (`LengthIsNegative`). The verifier of the op
  rejects such ranges, so the negative length is only seen where the result type is inferred.
- An index tensor with several coordinates counts as one index when the tuple is completed: the
  gathered dimensions exist if and only if enough full slices follow the last index tensor
  (`WithinRank`).

## Model

| member | source | states |
|---|---|---|
| IteratorOps.ConstantStreamIsComplete | lib/Conversion/IteratorsToLLVM/IteratorsToLLVM.cpp:432-497 | The rows that the generated code delivers are all rows exactly if their number fits an i32. |
| IteratorOps.FittingStreamsAreDelivered | lib/Conversion/IteratorsToLLVM/IteratorsToLLVM.cpp:432-1442 | If every upstream constant stream has at most 2^31 - 1 rows, the delivered stream is the denoted one. |
| IteratorOps.TooManyRows | lib/Conversion/IteratorsToLLVM/IteratorsToLLVM.cpp:432-497 | A constant stream of 2^31 rows delivers nothing. |
| IteratorOps.WrappedRows | lib/Conversion/IteratorsToLLVM/IteratorsToLLVM.cpp:432-497 | A constant stream of 2^32 + 5 rows delivers the first five. |
| IteratorOps.RejectedRowsNeedNotFit | lib/Conversion/IteratorsToLLVM/IteratorsToLLVM.cpp:432-497 | A stream that is delivered as denoted although a constant stream does not fit. |
| IteratorOps.TypedHasStateType | lib/Conversion/IteratorsToLLVM/IteratorAnalysis.cpp:71-147 | Every state that the functions accept has the nested state type of the analysis. |
| IteratorOps.RemainingDefined | lib/Conversion/IteratorsToLLVM/IteratorsToLLVM.cpp:477-484 | With defined sources, no undefined value is still to come, in any state of any op. |
| Streams.ZippedTails | lib/Conversion/IteratorsToLLVM/IteratorsToLLVM.cpp:1395-1442 | Taking one element from each input, where there is one, is one step of the zip of the inputs; it has ended exactly if one of them has. |
| StreamMeaning.DeliveredStreams | lib/Conversion/IteratorsToLLVM/IteratorsToLLVM.cpp:432-1442 | What is delivered for an op is, element by element, a selection, the images, the reduction with the accumulator as first argument, the tuples in lock step, or the rows of the columns in their order. |
| StreamMeaning.DenotedStreams | lib/Conversion/IteratorsToLLVM/IteratorsToLLVM.cpp:432-1442 | The same for the denoted streams; a constant stream denotes all its rows. |
| StreamMeaning.FoldLeftSnoc | lib/Conversion/IteratorsToLLVM/IteratorsToLLVM.cpp:958-1024 | The last element is folded in last, as second argument of the reduce function. |
| StreamMeaning.FoldLeftAccumulates | lib/Conversion/IteratorsToLLVM/IteratorsToLLVM.cpp:958-1024 | The reduction is the last of the accumulators, each of which the reduce function computes from the previous one and an element. |
| StreamMeaning.SourceStateTypes | lib/Conversion/IteratorsToLLVM/IteratorAnalysis.cpp:71-135 | The state types of sources are an i32, an i64 with the view, and a flag with the value; a state is accepted exactly if it has that type and holds the source's view or value. |
| NameAssigners.NumberedInjective | lib/Utils/NameAssigner.cpp:21-38 | Different numbers give different names. |
| NameAssigners.DecimalIsDecimal | lib/Utils/NameAssigner.cpp:21-38 | Numbers are written in decimal digits, without leading zeros, whose value is the number. |
| NameAssigners.ObstaclesShrink | lib/Utils/NameAssigner.cpp:21-38 | Every failed attempt leaves fewer taken names in the way, so the search ends for every set of names. |
| NameAssigners.NameAssigner.AssignName | lib/Utils/NameAssigner.cpp:21-38 | The name is the prefix, a dot and a decimal number without leading zeros; it is new for the module and the assigner; it is the first free one from the last number on; it is remembered. |
| IteratorLowering.AssignFunctionNames | lib/Conversion/IteratorsToLLVM/IteratorAnalysis.cpp:26-42 | The three names of an op are new and differ, and start with the name of the op and open, next and close. |
| IteratorLowering.ComputedStateType | lib/Conversion/IteratorsToLLVM/IteratorAnalysis.cpp:71-147 | The state type computed from upstream state types is the state type of the op. |
| IteratorLowering.Analyze | lib/Conversion/IteratorsToLLVM/IteratorAnalysis.cpp:180-216 | The analysis is total; all symbols of all iterators differ from each other and from those of the module; all state types are right. |
| IteratorLowering.ConvertIteratorOps | lib/Conversion/IteratorsToLLVM/IteratorsToLLVM.cpp:1976-2049 | Every call of a generated function resolves to the function of the upstream op; in the initial states the whole stream is to come, and they are well-typed; no symbol of the module is redefined. |
| IteratorExecution.CallOpen | lib/Conversion/IteratorsToLLVM/IteratorsToLLVM.cpp:1543-1558 | From any well-typed state, used or not, open leads to a state in which the whole stream is to come, which is the denoted one where constant streams fit; every upstream op is opened once per use-def path. |
| IteratorExecution.OpenSource | lib/Conversion/IteratorsToLLVM/IteratorsToLLVM.cpp:320-335 | Open of a source restarts its stream. |
| IteratorExecution.OpenUpstream | lib/Conversion/IteratorsToLLVM/IteratorsToLLVM.cpp:532-554 | Open of filter, map and reduce opens the input and restarts the stream. |
| IteratorExecution.OpenUpstreams | lib/Conversion/IteratorsToLLVM/IteratorsToLLVM.cpp:1344-1370 | Open of a zip opens all inputs and restarts the stream. |
| IteratorExecution.CallNext | lib/Conversion/IteratorsToLLVM/IteratorsToLLVM.cpp:1563-1580 | For every op: reports an element exactly if one remains, returns the first remaining one and leaves the others; takes one element from every input of a zip; only upstream iterators are advanced; no undefined value is passed on or to a user function. |
| IteratorExecution.NextConstant | lib/Conversion/IteratorsToLLVM/IteratorsToLLVM.cpp:432-497 | One step of a constant stream with a 32-bit index. |
| IteratorExecution.NextView | lib/Conversion/IteratorsToLLVM/IteratorsToLLVM.cpp:1136-1215 | One step of a tabular view: field `j` of the tuple is the element of column `j` at the current index. |
| IteratorExecution.NextFilter | lib/Conversion/IteratorsToLLVM/IteratorsToLLVM.cpp:587-660 | One step of the filtered stream. |
| IteratorExecution.FilterLoop | lib/Conversion/IteratorsToLLVM/IteratorsToLLVM.cpp:604-650 | The loop ends, with the first match and what follows it, or with an exhausted input without match. |
| IteratorExecution.NextMap | lib/Conversion/IteratorsToLLVM/IteratorsToLLVM.cpp:761-826 | One step of the mapped stream; the function is only called on elements. |
| IteratorExecution.NextReduce | lib/Conversion/IteratorsToLLVM/IteratorsToLLVM.cpp:938-1034 | The left fold of all elements once, or the end for an empty input. |
| IteratorExecution.ReduceLoop | lib/Conversion/IteratorsToLLVM/IteratorsToLLVM.cpp:958-1024 | The loop ends with an exhausted input and the left fold of what remained. |
| IteratorExecution.NextZip | lib/Conversion/IteratorsToLLVM/IteratorsToLLVM.cpp:1395-1442 | One step of the zipped stream; every input loses its head, also on the call that reports the end. |
| IteratorExecution.CallNextRepeatedly | lib/Conversion/IteratorsToLLVM/IteratorsToLLVM.cpp:432-1442 | Any number of calls of next delivers the remaining elements in order and then reports the end forever; `n` calls on a zip take `n` elements from every input, or as many as there are. |
| IteratorExecution.CallClose | lib/Conversion/IteratorsToLLVM/IteratorsToLLVM.cpp:1584-1600 | Close keeps the state and closes every upstream op once per use-def path. |
| IteratorExecution.CloseUpstream | lib/Conversion/IteratorsToLLVM/IteratorsToLLVM.cpp:668-690 | Close of filter, map and reduce closes the input. |
| IteratorExecution.CloseUpstreams | lib/Conversion/IteratorsToLLVM/IteratorsToLLVM.cpp:1454-1481 | Close of a zip closes all inputs. |
| IteratorExecution.Consume | lib/Conversion/IteratorsToLLVM/IteratorsToLLVM.cpp:1766-1794 | The consuming loop ends and prints exactly what remains, in order; from the inputs of a zip it takes one element more than it prints. |
| IteratorExecution.DrainedZip | lib/Conversion/IteratorsToLLVM/IteratorsToLLVM.cpp:1395-1442 | A drained zip keeps the elements of its inputs beyond its own length exactly if all inputs are equally long. |
| IteratorExecution.EndKeepsInputs | lib/Conversion/IteratorsToLLVM/IteratorsToLLVM.cpp:1395-1442 | A call of next on a zip leaves its inputs as they are exactly if all of them are exhausted. |
| IteratorExecution.SinkOnUnequalZip | lib/Conversion/IteratorsToLLVM/IteratorsToLLVM.cpp:1395-1442 | A run on inputs of one and two elements that consumes the second element of the longer input. |
| IteratorExecution.SinkOnReduce | lib/Conversion/IteratorsToLLVM/IteratorsToLLVM.cpp:938-1034 | A run on two rows that prints the reduce function of the first and the second. |
| IteratorExecution.RunSink | lib/Conversion/IteratorsToLLVM/IteratorsToLLVM.cpp:1738-1805 | A sink prints the delivered stream, which is element by element what the op gives for the streams of its inputs, and then the end mark; that is the denoted stream where all constant streams fit, and for a sink on a constant stream exactly then; opens, steps and closes come in this order; no undefined value is printed; a zip keeps the remainder of its inputs exactly if they are equally long. |
| IteratorExecution.RunStreamToValue | lib/Conversion/IteratorsToLLVM/IteratorsToLLVM.cpp:1823-1861 | The head of the delivered stream, and of the denoted one where constant streams fit, and whether there is one; for a constant stream this is right exactly if it is empty or its wrapped end is positive; the same life cycle although the stream is not drained. |
| IteratorExecution.LowerAndRun | lib/Conversion/IteratorsToLLVM/IteratorsToLLVM.cpp:1976-2049 | The whole pass followed by a run: for all ops the sink prints, element by element, what the op gives for the streams of its inputs; over fitting constant streams that is what the op denotes; on a constant stream exactly if it fits. |
| IteratorTrees.TreesHaveUniquePaths | lib/Conversion/IteratorsToLLVM/IteratorsToLLVM.cpp:1344-1370 | If every op has at most one use, there is exactly one path to every upstream op. |
| IteratorTrees.OpenedAndClosedOnce | lib/Conversion/IteratorsToLLVM/IteratorsToLLVM.cpp:1738-1861 | In every run over a tree, each upstream iterator is opened exactly once and closed exactly once, every other one never. |
| IteratorTrees.AdvancedWhileOpen | lib/Conversion/IteratorsToLLVM/IteratorsToLLVM.cpp:1738-1861 | In every run, an iterator is opened before each call of its next function and closed after it. |
| StateLayout.RebuildLeaves | lib/Dialect/Iterators/Transforms/DecomposeIteratorStates.cpp:160-237 | With a moving cursor, rebuilding a flattened state gives it back, for every nesting. |
| StateLayout.LeavesRebuild | lib/Dialect/Iterators/Transforms/DecomposeIteratorStates.cpp:160-237 | Flattening a rebuilt state gives the leaves back. |
| StateLayout.LeavesOfField | lib/Dialect/Iterators/Transforms/DecomposeIteratorStates.cpp:104-132 | The leaves of a field are the slice at its offset. |
| StateLayout.LeavesOfUpdate | lib/Dialect/Iterators/Transforms/DecomposeIteratorStates.cpp:66-102 | Replacing a field replaces exactly the slice at its offset. |
| StatePrograms.DecomposeInsertValue | lib/Dialect/Iterators/Transforms/DecomposeIteratorStates.cpp:66-102 | The loop over the fields splices the converted value into the flat list at the offset of the field. |
| StatePrograms.FlatEvalSimulates | lib/Dialect/Iterators/Transforms/DecomposeIteratorStates.cpp:52-132 | Every op on flat lists computes the leaves of its result on nested states. |
| StatePrograms.LowerCreateState | lib/Conversion/StatesToLLVM/StatesToLLVM.cpp:59-84 | The insertions into an undefined struct leave no field undefined. |
| StatePrograms.StructEvalSimulates | lib/Conversion/StatesToLLVM/StatesToLLVM.cpp:59-120 | Every op on structs computes the struct of its result on nested states. |
| StatePrograms.RunsAgree | lib/Dialect/Iterators/Transforms/DecomposeIteratorStates.cpp:31-132 | Whole programs: every result is represented faithfully in all three runs. |
| StatePrograms.LeafResultsAgree | lib/Dialect/Iterators/Transforms/DecomposeIteratorStates.cpp:31-132 | Results that are no states are equal in all three runs. |
| StateMaterialization.BuildExtractValueOps | lib/Dialect/Iterators/Transforms/DecomposeIteratorStates.cpp:205-237 | The recursive extraction gives all leaves in order. |
| StateMaterialization.BuildCreateStateOp | lib/Dialect/Iterators/Transforms/DecomposeIteratorStates.cpp:160-191 | The creation as written reads every field from the front of the inputs. |
| StateMaterialization.FrontBuiltLeaves | lib/Dialect/Iterators/Transforms/DecomposeIteratorStates.cpp:160-191 | All leaves of the created state are the first input. |
| StateMaterialization.CreateAfterExtract | lib/Dialect/Iterators/Transforms/DecomposeIteratorStates.cpp:160-237 | A state is restored exactly if all its leaves are equal. |
| StateMaterialization.TwoFieldsAreNotRestored | lib/Dialect/Iterators/Transforms/DecomposeIteratorStates.cpp:170-187 | A state with two fields that is not restored. |
| StateMaterialization.SomeStateIsNotRestored | lib/Dialect/Iterators/Transforms/DecomposeIteratorStates.cpp:160-237 | Every type with at least two leaves has a well-typed state that is not restored. |
| StateMaterialization.CreateInvertsExtract | lib/Dialect/Iterators/Transforms/DecomposeIteratorStates.cpp:160-237 | All well-typed states of a type are restored exactly if the type has at most one leaf. |
| SpmdConversion.AddArguments | lib/Conversion/TritonSPMDToFuncArgs/TritonSPMDToFuncArgs.cpp:212-232 | Every function with a body gets the arguments; the remembered kernels are exactly the functions with a body and without results, in order. |
| SpmdConversion.BuildGridFuncs | lib/Conversion/TritonSPMDToFuncArgs/TritonSPMDToFuncArgs.cpp:249-258 | One grid function per kernel, in order. |
| SpmdConversion.RunOnOperation | lib/Conversion/TritonSPMDToFuncArgs/TritonSPMDToFuncArgs.cpp:207-273 | The phases of the pass give the converted module about which the theorems are; every function keeps its place, name and results; there is a new function exactly for each function with a body and without results, with `_grid` after its name and three more parameters. |
| SpmdConversion.ConvertAddsGridFuncs | lib/Conversion/TritonSPMDToFuncArgs/TritonSPMDToFuncArgs.cpp:212-258 | The new functions, in order, are those of the functions with a body and without results. |
| SpmdConversion.SpmdArgPositions | lib/Conversion/TritonSPMDToFuncArgs/TritonSPMDToFuncArgs.cpp:33-65 | The positions in x, y and z are the arguments 0 to 2, the extents the arguments 3 to 5. |
| SpmdConversion.ConvertedFunc | lib/Conversion/TritonSPMDToFuncArgs/TritonSPMDToFuncArgs.cpp:67-112 | Forwarding arguments, extending calls and replacing SPMD ops, one after the other, is one translation of the body. |
| SpmdCorrectness.BlockSsaConsistent | lib/Conversion/TritonSPMDToFuncArgs/TritonSPMDToFuncArgs.cpp:33-65 | In SSA form, the replacement of SPMD ops by arguments never touches any other value. |
| SpmdCorrectness.BlockPreserved | lib/Conversion/TritonSPMDToFuncArgs/TritonSPMDToFuncArgs.cpp:33-112 | A converted block computes the same memory and values, with SPMD values found in the arguments. |
| SpmdCorrectness.FuncPreserved | lib/Conversion/TritonSPMDToFuncArgs/TritonSPMDToFuncArgs.cpp:33-112 | A converted function run with the position as arguments does what the function does at that position, at every call depth. |
| SpmdGrids.GridLoopPreserved | lib/Conversion/TritonSPMDToFuncArgs/TritonSPMDToFuncArgs.cpp:163-183 | The loop of a grid function, over any list of points, does what launching the kernel at these points does, and starts the same program instances. |
| SpmdGrids.GridFuncLaunches | lib/Conversion/TritonSPMDToFuncArgs/TritonSPMDToFuncArgs.cpp:130-186 | For every function with a body and without results, calling the function with `_grid` after its name launches it for the iterations that the bounds and steps of its loop give. |
| SpmdGrids.GridLoopCall | lib/Conversion/TritonSPMDToFuncArgs/TritonSPMDToFuncArgs.cpp:169-180 | In each iteration the kernel gets the loop variables, the extents and the arguments of the grid function. |
| SpmdGrids.IterationsCoverGrid | lib/Conversion/TritonSPMDToFuncArgs/TritonSPMDToFuncArgs.cpp:151-167 | The bounds and steps of the loop give every point of the grid exactly once and no other point. |
| SpmdGrids.LaunchPointsCoverGrid | lib/Conversion/TritonSPMDToFuncArgs/TritonSPMDToFuncArgs.cpp:163-167 | So does every order in which the iterations may run. |
| SpmdGrids.ConvertedModuleIsVerified | lib/Conversion/TritonSPMDToFuncArgs/TritonSPMDToFuncArgs.cpp:215-246 | All calls match their callees after the conversion exactly if no callee is external. |
| SpmdGrids.ConvertedNamesAreDistinct | lib/Conversion/TritonSPMDToFuncArgs/TritonSPMDToFuncArgs.cpp:220-250 | The symbols stay distinct exactly if no grid function takes the name of a function. |
| SpmdSafety.FuncNeverFaults | lib/Conversion/TritonSPMDToFuncArgs/TritonSPMDToFuncArgs.cpp:207-273 | Functions of a verified module never use an undefined value or a wrong signature, and return all results. |
| SpmdSafety.LaunchStarts | lib/Conversion/TritonSPMDToFuncArgs/TritonSPMDToFuncArgs.cpp:130-186 | A launch that ends has started one program instance per point, in order; code without grid functions starts none. |
| SpmdSafety.ConversionPreservesFunctions | lib/Conversion/TritonSPMDToFuncArgs/TritonSPMDToFuncArgs.cpp:33-112 | For every function of a verified module, every position and every ambient position afterwards: the same results and memory. |
| SpmdSafety.ConversionPreservesLaunches | lib/Conversion/TritonSPMDToFuncArgs/TritonSPMDToFuncArgs.cpp:130-258 | For every function with a body and without results of a verified module, every grid and every order of the iterations: calling the function with `_grid` after its name equals launching it, and when it returns, every point of the grid has been started exactly once with the extents and the arguments, and nothing else. |
| SpmdVerification.ConvertedBodyIsVerified | lib/Conversion/TritonSPMDToFuncArgs/TritonSPMDToFuncArgs.cpp:67-112 | A converted function is in SSA form, uses only what dominates, and returns as many values as before. |
| SpmdVerification.ConvertedModulePasses | lib/Conversion/TritonSPMDToFuncArgs/TritonSPMDToFuncArgs.cpp:207-273 | The converted module is verified IR (symbols, calls, SSA form, dominance) exactly if no callee is external and no grid function takes the name of a function. |
| SpmdVerification.ExternalCalleeDoesNotPass | lib/Conversion/TritonSPMDToFuncArgs/TritonSPMDToFuncArgs.cpp:217-246 | A verified module with an external callee whose conversion is not verified IR. |
| SpmdVerification.TakenGridNameDoesNotPass | lib/Conversion/TritonSPMDToFuncArgs/TritonSPMDToFuncArgs.cpp:220-250 | A verified module with a function `k_grid` whose conversion is not verified IR. |
| TagInlining.InlinedShape | jasc/mlir_lowering.cc:211-219 | No tag region is left; all other ops are there, in order. |
| TagInlining.InlinedEval | jasc/mlir_lowering.cc:211-219 | Under any settled substitution, every visible value is found under its substitute after the inlined ops. |
| TagInlining.InliningPreservesMeaning | jasc/mlir_lowering.cc:211-219 | For every valid block and nesting: the same ops run, in the same order, on the same operand values, and the terminator has the same values. |
| TagLowering.SubstThenInline | jasc/mlir_lowering.cc:214-215 | Replacing uses before inlining is inlining under the composed substitution. |
| TagLowering.RegionStep | jasc/mlir_lowering.cc:211-219 | One region: replacing the uses of its results keeps the IR valid and gives the inlined block. |
| TagLowering.LowerTagRegions | jasc/mlir_lowering.cc:211-219 | The walk, region by region and inner regions first, gives the inlined block. |
| TagValidity.InliningPreservesValidity | jasc/mlir_lowering.cc:211-219 | The lowered block is valid IR: operands are visible, and no value is defined twice. |
| Tagging.TagAttributes.AppendToAll | jasc/mlir_lowering.cc:197-208 | The inner walk appends the name to the tags of every op in a region, the region included, except empty tensors. |
| Tagging.TagAttributes.TagOps | jasc/mlir_lowering.cc:195-209 | Every contained op other than an empty tensor keeps its tags and gets the names of the regions around it, innermost first; nothing else changes. |
| Tagging.OpsWithinFacts | jasc/mlir_lowering.cc:195-209 | A contained op is tagged exactly if it is no empty tensor, with the regions around it as its path. |
| Tagging.MatchTag | jasc/transform_ops/jasc_transform_ops.cc:27-49 | The loops select, in order, exactly the ops that have the attribute with at least as many tags as requested and the requested ones in front. |
| Tagging.MatchingIsByPath | jasc/transform_ops/jasc_transform_ops.cc:27-49 | After tagging untagged ops, matching by tags is matching by the path of enclosing regions. |
| Tagging.TagAndMatch | jasc/transform_ops/jasc_transform_ops.cc:27-49 | Tagging and matching together select, in order, exactly the targets that are no empty tensors and whose regions, innermost first, start with the requested names. |
| KernelCache.SigKeysAt | python/mlir_structured/triton/jit.py:317-320 | Equal signature keys mean equal type keys of all regular arguments. |
| KernelCache.SpecKeysAt | python/mlir_structured/triton/jit.py:321-327 | Equal specialization keys mean equal specializations of all arguments that the key does not skip. |
| KernelCache.EqualKeysSpecialize | python/mlir_structured/triton/jit.py:188-207 | Equal keys and interchangeable constexprs give equal configs, signatures and constants. |
| KernelCache.InputsAreRequested | python/mlir_structured/triton/jit.py:359-367 | What the compiler is given, argument by argument: types by range, dtype or kind, the multiples of 16 and the ones that may be specialized, and the constants. |
| KernelCache.KeysAreEqual | python/mlir_structured/triton/jit.py:308-339 | Two calls have the same key exactly if they agree on options, constexpr values as Python compares them, types, and specializations of the parameters that are not skipped by rank. |
| KernelCache.RankIsCount | python/mlir_structured/triton/jit.py:323-325 | The rank of a parameter is the number of regular parameters before it. |
| KernelCache.EarlyErrors | python/mlir_structured/triton/jit.py:334-340 | A launch fails before the lookup exactly for unsupported regular arguments or a number of warps that is no power of two. |
| KernelCache.LateErrors | python/mlir_structured/triton/jit.py:358-373 | Otherwise it fails before compiling exactly for unknown dtypes or callable constexprs. |
| KernelCache.ShortNames | python/mlir_structured/triton/jit.py:218-238 | Short type names stand for themselves. |
| KernelCache.SignedNames | python/mlir_structured/triton/jit.py:218-238 | The names of signed integer types. |
| KernelCache.UnsignedNames | python/mlir_structured/triton/jit.py:218-238 | The names of unsigned integer types and Booleans. |
| KernelCache.FloatNames | python/mlir_structured/triton/jit.py:218-238 | The names of floating point types. |
| KernelCache.EqualKeysCompileTheSame | python/mlir_structured/triton/jit.py:284-370 | For coherent functions, calls with equal keys compile the same exactly if their constexpr values are interchangeable. |
| KernelCache.ZeroIsNotFalse | python/mlir_structured/triton/jit.py:335-338 | Zero and false share a key and compile differently. |
| KernelCache.ZeroIsNotNegativeZero | python/mlir_structured/triton/jit.py:335-338 | The two float zeros share a key and compile differently. |
| KernelCache.KeyDeterminesKernelIffCoherent | python/mlir_structured/triton/jit.py:322-327 | The key determines the kernel exactly if every parameter skipped by rank is also skipped by position. |
| KernelCache.SkippedByRank | python/mlir_structured/triton/jit.py:322-327 | A constexpr before two regular parameters: two calls that share a key and compile differently. |
| KernelCache.CacheHit | python/mlir_structured/triton/jit.py:352-356 | A kernel found in the cache is the one that the call itself would compile. |
| KernelCache.JitFunction.Launch | python/mlir_structured/triton/jit.py:332-379 | For every function and call: on a miss the outcome of a fresh compile from exactly what the launch requests, unless the hook takes over, on a hit the cached kernel, which was compiled for a launch with the same key; for coherent functions and typed constexprs the kernel and the errors are those of a fresh compile; nothing else in the cache changes. |
| KernelCache.LaunchAll | python/mlir_structured/triton/jit.py:332-379 | For every sequence of launches: each kernel was compiled from what this launch, or an earlier one with the same key, requests; for coherent functions and typed constexprs each outcome is that of a fresh compile. |
| KernelCache.LaunchTwice | python/mlir_structured/triton/jit.py:332-379 | The second of two launches with equal keys gets the kernel of the first, which is right exactly if both compile from the same inputs. |
| KernelCache.LaunchSkippedByRank | python/mlir_structured/triton/jit.py:322-379 | A run in which a launch gets a kernel that is specialized to multiples of 16 for an argument that is none. |
| KernelCache.LaunchZeroAndFalse | python/mlir_structured/triton/jit.py:332-379 | A run in which a launch with false gets the kernel for zero. |
| Broadcast.FindBroadcastDims | lib/Conversion/TritonToLLVM/TritonToLLVM.cpp:410-421 | The loop finds exactly the dimensions that change, in increasing order. |
| Broadcast.KeptOrdered | lib/Conversion/TritonToLLVM/TritonToLLVM.cpp:410-421 | The kept dimensions are exactly those that do not change, in increasing order. |
| Broadcast.FillGroup | lib/Conversion/TritonToLLVM/TritonToLLVM.cpp:434-438 | The inner loop fills a group with the range up to its kept dimension, or up to the rank for the last group. |
| Broadcast.Reassociate | lib/Conversion/TritonToLLVM/TritonToLLVM.cpp:426-439 | Every group is a contiguous range with its kept dimension in it. |
| Broadcast.OnlyBroadcastBetween | lib/Conversion/TritonToLLVM/TritonToLLVM.cpp:426-439 | A group has no other kept dimension. |
| Broadcast.GroupsPartition | lib/Conversion/TritonToLLVM/TritonToLLVM.cpp:426-439 | The groups in order are the dimensions in order. |
| Broadcast.CollapsedShape | lib/Conversion/TritonToLLVM/TritonToLLVM.cpp:440-441 | The collapsed tensor has the extents of the result in the kept dimensions. |
| Broadcast.LowerBroadcast | lib/Conversion/TritonToLLVM/TritonToLLVM.cpp:399-448 | For every rank and shape, the result at an index is the source at that index with zeros in the broadcast dimensions. |
| ElementwiseMemory.RowMajorMembers | lib/Conversion/TritonToLLVM/TritonToLLVM.cpp:868-883 | A loop nest visits exactly the indices of the tensor. |
| ElementwiseMemory.RowMajorDistinct | lib/Conversion/TritonToLLVM/TritonToLLVM.cpp:868-883 | A loop nest visits no index twice. |
| ElementwiseMemory.RowMajorAt | lib/Conversion/TritonToLLVM/TritonToLLVM.cpp:868-883 | The order of the loop nest is row-major: every index is at its row-major position. |
| Shapes.PositionsAreRowMajor | lib/Conversion/TritonToLLVM/TritonToLLVM.cpp:868-883 | Positions are ordered by the first dimension in which indices differ. |
| ElementwiseMemory.SumAtSnoc | lib/Conversion/TritonToLLVM/TritonToLLVM.cpp:246-273 | The sum for an address grows by the values with a true mask bit, or without a mask, that target it. |
| ElementwiseMemory.CombineAtSnoc | lib/Conversion/TritonToLLVM/TritonToLLVM.cpp:246-273 | The same for any combiner, which gets the old value first. |
| ElementwiseMemory.LastWriterWins | lib/Conversion/TritonToLLVM/TritonToLLVM.cpp:881-924 | An address has the value of its last active writer. |
| ElementwiseMemory.OrderDoesNotMatter | lib/Conversion/TritonToLLVM/TritonToLLVM.cpp:881-924 | With distinct active addresses, any order of the stores gives the same memory. |
| ElementwiseMemory.AtomicMemory | lib/Conversion/TritonToLLVM/TritonToLLVM.cpp:246-273 | For any combiner, an address has the combination of all active values for it, in order. |
| ElementwiseMemory.AtomicResults | lib/Conversion/TritonToLLVM/TritonToLLVM.cpp:326-356 | For any combiner, an active element gets the combination of the earlier values for its address; an inactive one gets nothing. |
| ElementwiseMemory.Machine.StoreNest | lib/Conversion/TritonToLLVM/TritonToLLVM.cpp:881-924 | The nested loops store element by element in row-major order. |
| ElementwiseMemory.Machine.AtomicNest | lib/Conversion/TritonToLLVM/TritonToLLVM.cpp:326-356 | The nested loops update element by element in row-major order. |
| ElementwiseMemory.StoreTensor | lib/Conversion/TritonToLLVM/TritonToLLVM.cpp:846-924 | An address that no in-bounds index with a true mask bit, or no index at all without a mask, targets is unchanged; an address that one targets has the value of the last of them in row-major order. |
| ElementwiseMemory.AtomicAddTensor | lib/Conversion/TritonToLLVM/TritonToLLVM.cpp:246-360 | Every address grows by the sum of the values with a true mask bit, or without a mask, that target it; these elements get the value before their own addition, the others nothing. |
| Memrefs.FillMetadata | jasc/call_kernel.cc:164-176 | The strides are the products of the later sizes. |
| Memrefs.OffsetsAreBijective | jasc/call_kernel.cc:164-176 | The offsets of the in-bounds indices are exactly the numbers below the number of elements, each once. |
| Memrefs.PopulateMemrefMetaData | jasc/call_kernel.cc:161-185 | Metadata for all inputs and then all results. |
| Memrefs.PackArgs | jasc/call_kernel.cc:114-125 | One operand: pointer twice, offset, sizes, strides, in this order. |
| Memrefs.UnpackDescriptors | jasc/call_kernel.cc:101-142 | Reading packed arguments by rank gives every operand back. |
| Memrefs.Call | jasc/call_kernel.cc:101-142 | The reserved number of arguments is right; a reader gets all inputs and then, by the number of outputs, the single result or all results of the table. |
| Memrefs.CallKernel | jasc/call_kernel.cc:101-185 | A called kernel sees every operand with its shape and with strides that address every element exactly once. |
| Arange.FoldValues | lib/Dialect/Indexing/IR/Indexing.cpp:280-295 | The loop pushes the values of the range. |
| Sequences.StepsAt | lib/Dialect/Indexing/IR/Indexing.cpp:289-292 | Value number `k` is `start + k * step`, for exactly those `k` for which that is below `stop`. |
| Arange.LengthIsNumberOfValues | lib/Dialect/Indexing/IR/Indexing.cpp:131-136 | The computed length is the number of values exactly if stop - start > -step. |
| Arange.LengthIsNegative | lib/Dialect/Indexing/IR/Indexing.cpp:131-136 | The computed length is negative exactly if stop - start <= -step. |
| Arange.LengthIsRoundedUp | lib/Dialect/Indexing/IR/Indexing.cpp:131-136 | For all ranges the computed length is the distance in steps, rounded up. |
| Arange.DenotedConstants | lib/Dialect/Indexing/IR/Indexing.cpp:280-295 | With three attributes the range is from start to stop in steps. |
| Arange.NegativeLength | lib/Dialect/Indexing/IR/Indexing.cpp:138-165 | A range for which the length, from which the result type is inferred, is negative. |
| Arange.VerifiedRanges | lib/Dialect/Indexing/IR/Indexing.cpp:172-194 | For every range that passes the verifier the length is right. |
| Arange.Rewrite | lib/Dialect/Indexing/IR/Indexing.cpp:207-270 | The canonicalization keeps the range for all values of the operands, keeps operands and attributes at three, keeps the other operands in order, leaves nothing to match, and has fewer operands exactly if the pattern matches. |
| GatherDims.CanonicalizeTupleIndex | python/mlir_structured/dialects/indexing.py:813-862 | Fails exactly for too many indices or several ellipses; otherwise there is one element per dimension, with colons for the ellipsis or at the end. |
| GatherDims.AtMostOneEllipsis | python/mlir_structured/dialects/indexing.py:844-849 | At most one ellipsis is counted exactly if no two elements are ellipses. |
| GatherDims.ComputeIdxTensorExtent | python/mlir_structured/dialects/indexing.py:865-898 | The dimensions are increasing and exactly those that index tensors cover; there are as many as coordinates. |
| GatherDims.ProcessElements | python/mlir_structured/dialects/indexing.py:917-1000 | Fails exactly for different shapes or tensors without coordinates; contiguous or not, the gathered dimensions are those that the tensors cover, and match the concatenated coordinates. |
| GatherDims.IndicesToIndexer | python/mlir_structured/dialects/indexing.py:901-1000 | The whole indexing of a tuple, and when the gathered dimensions lie within the rank. |
| GatherDims.WithinRank | python/mlir_structured/dialects/indexing.py:888-897 | The gathered dimensions exist exactly if enough full slices follow the last index tensor. |
| GatherDims.SingleCoordinatesFit | python/mlir_structured/dialects/indexing.py:888-897 | With one coordinate per index tensor they always exist. |
| GatherDims.TwoCoordinatesAtTheEnd | python/mlir_structured/dialects/indexing.py:888-897 | An index whose gathered dimensions do not exist. |

## Left out

- MLIR itself: dialect conversion, one-to-N patterns, pass managers, bufferization, symbol resolution
  across modules. `scf`, `tensor.collapse_shape` and `linalg.broadcast` have small definitions here.
- Side effects and failures of the predicate, map and reduce functions: they are pure total functions.
- Printing of elements (format strings, global strings): a print is an event with the value.
- The layout of constant streams in global memory and of columns behind pointers: both are sequences.
- Tabular views whose later columns are shorter than the first (the code would read out of bounds), and
  zips without inputs (the generated `next` never ends).
- Iterator ops on values other than integers, Booleans and tuples: element values are not typed further.
- Control flow in programs of state ops: the conversion of `scf` and `func` ops is MLIR's.
- Parallel execution of grids and atomics: iterations and elements are run one after the other, iterations
  in any order; memory orderings are not modelled.
- Results of `if` and `for` ops, bounds and steps of `for` ops other than from zero in steps of one, function
  attributes and locations in the SPMD pass.
- Truncation of grid positions between `index` and `i32`.
- The tags of terminators of ops other than tag regions; they are no targets of the matching.
- JitFunction: the parameters are regular and without annotation, or constexprs. The generated launcher does
  not quote the names of annotated `bool` and `float` parameters, and is no valid Python without any
  regular parameter. Data types of tensors are no strings; NaN, warm-up, default devices and the hook's own
  actions are not modelled.
- Wrap-around of `uniqueNumber`, `multiplier` and of the 64-bit arithmetic in `arange`.
- Other Triton conversions (load, compare-and-swap, pointer arithmetic, expand_dims, reduce, dot): element-wise
  or one call each. The reduce conversion starts from zero, which is right only if zero is neutral.
- Advanced indexing with scalars, `None` or partial slices, and the conversion of lists to index tensors.
- The kernel registry, locking and the execution engine of Jasc.
- Jasc's Python layer, the tuner, `AllocRemoval`, GPU passes, the language bindings and all benchmarks.
