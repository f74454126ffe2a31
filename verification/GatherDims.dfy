/** Advanced indexing with index tensors, full slices and ellipses: which dimensions of the indexed
    tensor are gathered. */
module GatherDims {
  import opened Sequences

  datatype Result<+T> = Ok(value: T) | IndexError

  /** `Full` is `:`, `Ellipsis` is `...`; the last dimension of an index tensor holds coordinates. */
  datatype Element = Full | Ellipsis | IndexTensor(shape: seq<nat>)

  /** The number of coordinates per index; a tensor without dimensions has no last one. */
  function Width(shape: seq<nat>): nat {
    if shape == [] then 0 else shape[|shape| - 1]
  }

  // ----- Canonical index tuples -----

  function CountReal(idx: seq<Element>): (n: nat)
    ensures n <= |idx|
  {
    if idx == [] then 0 else CountReal(idx[..|idx| - 1]) + if idx[|idx| - 1].Ellipsis? then 0 else 1
  }

  function CountEllipses(idx: seq<Element>): nat {
    if idx == [] then 0 else CountEllipses(idx[..|idx| - 1]) + if idx[|idx| - 1].Ellipsis? then 1 else 0
  }

  function Colons(n: nat): (r: seq<Element>)
    ensures |r| == n && forall k | 0 <= k < n :: r[k].Full?
  {
    seq(n, _ => Full)
  }

  lemma {:induction false} CountsAddUp(idx: seq<Element>)
    ensures CountReal(idx) + CountEllipses(idx) == |idx|
    decreases |idx|
  {
    if idx != [] {
      CountsAddUp(idx[..|idx| - 1]);
    }
  }

  lemma {:induction false} CountAppend(a: seq<Element>, b: seq<Element>)
    ensures CountEllipses(a + b) == CountEllipses(a) + CountEllipses(b)
    decreases |b|
  {
    if b == [] {
      assert a + b == a;
    } else {
      CountAppend(a, b[..|b| - 1]);
      assert (a + b)[..|a + b| - 1] == a + b[..|b| - 1];
    }
  }

  lemma {:induction false} NoEllipses(idx: seq<Element>)
    ensures CountEllipses(idx) == 0 <==> forall k | 0 <= k < |idx| :: !idx[k].Ellipsis?
    decreases |idx|
  {
    if idx != [] {
      NoEllipses(idx[..|idx| - 1]);
      assert forall k | 0 <= k < |idx| - 1 :: idx[..|idx| - 1][k] == idx[k];
    }
  }

  /** The elements are those of `idx`, in order, with the ellipsis replaced by colons, and with
      colons at the end if there is none. */
  ghost predicate IsCanonical(idx: seq<Element>, rank: nat, r: seq<Element>) {
    && |r| == rank && (forall k | 0 <= k < rank :: !r[k].Ellipsis?)
    && exists e | 0 <= e <= |idx| ::
         && (e < |idx| ==> idx[e].Ellipsis?)
         && var after := if e < |idx| then idx[e + 1..] else [];
            && |idx[..e]| + |after| <= rank
            && r == idx[..e] + Colons(rank - |idx[..e]| - |after|) + after
  }

  /** Replaces the ellipsis, or appends colons, so that there is one element per dimension. */
  method CanonicalizeTupleIndex(idx: seq<Element>, rank: nat) returns (r: Result<seq<Element>>)
    ensures r.Ok? <==> CountReal(idx) <= rank && CountEllipses(idx) <= 1
    ensures r.Ok? ==> IsCanonical(idx, rank, r.value)
  {
    hide Colons;
    var lenWithoutNone := 0;
    var ellipsisIndex: int := -1;
    var multiple := false;
    for k := 0 to |idx|
      invariant lenWithoutNone == CountReal(idx[..k])
      invariant ellipsisIndex == -1 <==> CountEllipses(idx[..k]) == 0
      invariant ellipsisIndex != -1 ==> 0 <= ellipsisIndex < k && idx[ellipsisIndex].Ellipsis?
      invariant multiple <==> CountEllipses(idx[..k]) > 1
    {
      assert idx[..k + 1][..k] == idx[..k];
      if idx[k].Ellipsis? {
        if ellipsisIndex == -1 {
          ellipsisIndex := k;
        } else {
          multiple := true;
        }
      } else {
        lenWithoutNone := lenWithoutNone + 1;
      }
    }
    assert idx[..|idx|] == idx;
    if lenWithoutNone > rank || multiple {
      return IndexError;
    }
    CountsAddUp(idx);
    var colons := Colons(rank - lenWithoutNone);
    if ellipsisIndex != -1 {
      WithoutEllipsis(idx, ellipsisIndex);
      return Ok(idx[..ellipsisIndex] + colons + idx[ellipsisIndex + 1..]);
    }
    NoEllipses(idx);
    assert idx[..|idx|] + colons + [] == idx + colons;
    return Ok(idx + colons);
  }

  /** What is counted: at most one ellipsis means that no two elements are ellipses. */
  lemma {:induction false} AtMostOneEllipsis(idx: seq<Element>)
    ensures CountEllipses(idx) <= 1 <==>
            forall j, k | 0 <= j < k < |idx| :: !(idx[j].Ellipsis? && idx[k].Ellipsis?)
    decreases |idx|
  {
    if idx != [] {
      var init := idx[..|idx| - 1];
      AtMostOneEllipsis(init);
      NoEllipses(init);
      assert forall k | 0 <= k < |init| :: init[k] == idx[k];
    }
  }

  lemma OneEllipsis(e: Element)
    requires e.Ellipsis?
    ensures CountEllipses([e]) == 1
  {
    assert [e][..0] == [];
  }

  lemma {:induction false} WithoutEllipsis(idx: seq<Element>, e: nat)
    requires e < |idx| && idx[e].Ellipsis? && CountEllipses(idx) <= 1
    ensures forall k | 0 <= k < |idx| && k != e :: !idx[k].Ellipsis?
  {
    hide CountEllipses;
    var a, b := idx[..e], idx[e + 1..];
    assert idx == a + [idx[e]] + b;
    CountAppend(a + [idx[e]], b);
    CountAppend(a, [idx[e]]);
    OneEllipsis(idx[e]);
    NoEllipses(a);
    NoEllipses(b);
    assert forall k | 0 <= k < e :: a[k] == idx[k];
    assert forall k | e < k < |idx| :: b[k - e - 1] == idx[k];
  }

  // ----- Gathered dimensions -----

  /** The number of dimensions that an element of a canonical tuple covers. */
  function Extent(e: Element): nat {
    if e.IndexTensor? then Width(e.shape) else 1
  }

  /** The dimension at which element `k` starts. */
  function Axis(idx: seq<Element>, k: nat): nat
    requires k <= |idx|
  {
    if k == 0 then 0 else Axis(idx, k - 1) + Extent(idx[k - 1])
  }

  lemma {:induction false} AxisMonotone(idx: seq<Element>, a: nat, b: nat)
    requires a <= b <= |idx|
    ensures Axis(idx, a) <= Axis(idx, b)
    decreases b
  {
    if a < b {
      AxisMonotone(idx, a, b - 1);
    }
  }

  /** Dimension `d` is covered by an index tensor among the first `n` elements. */
  ghost predicate Gathered(idx: seq<Element>, n: nat, d: int)
    requires n <= |idx|
  {
    exists k | 0 <= k < n :: idx[k].IndexTensor? && Axis(idx, k) <= d < Axis(idx, k + 1)
  }

  /** The dimensions are exactly those that index tensors cover, in increasing order. */
  ghost predicate AreGathered(dims: seq<int>, idx: seq<Element>, n: nat)
    requires n <= |idx|
  {
    Increasing(dims) && forall d: int :: d in dims <==> Gathered(idx, n, d)
  }

  function CountTensors(idx: seq<Element>, n: nat): nat
    requires n <= |idx|
  {
    if n == 0 then 0 else CountTensors(idx, n - 1) + if idx[n - 1].IndexTensor? then 1 else 0
  }

  /** All index tensors among the first `n` elements have the given shape. */
  predicate SameShapes(idx: seq<Element>, n: nat, shape: seq<nat>)
    requires n <= |idx|
  {
    forall k | 0 <= k < n && idx[k].IndexTensor? :: idx[k].shape == shape
  }

  lemma GatheredStep(idx: seq<Element>, n: nat, d: int)
    requires n < |idx|
    ensures Gathered(idx, n + 1, d)
       <==> Gathered(idx, n, d) || (idx[n].IndexTensor? && Axis(idx, n) <= d < Axis(idx, n + 1))
  {
    if Gathered(idx, n + 1, d) {
      var k :| 0 <= k < n + 1 && idx[k].IndexTensor? && Axis(idx, k) <= d < Axis(idx, k + 1);
      assert k < n ==> Gathered(idx, n, d);
    }
    if Gathered(idx, n, d) {
      var k :| 0 <= k < n && idx[k].IndexTensor? && Axis(idx, k) <= d < Axis(idx, k + 1);
      assert k < n + 1;
    }
  }

  lemma GatheredBelow(idx: seq<Element>, n: nat, d: int)
    requires n <= |idx| && Gathered(idx, n, d)
    ensures 0 <= d < Axis(idx, n)
  {
    var k :| 0 <= k < n && idx[k].IndexTensor? && Axis(idx, k) <= d < Axis(idx, k + 1);
    AxisMonotone(idx, k + 1, n);
  }

  /** An index tensor adds the dimensions it covers; they come after all others. */
  lemma GatherTensor(dims: seq<int>, idx: seq<Element>, n: nat)
    requires n < |idx| && idx[n].IndexTensor? && AreGathered(dims, idx, n)
    ensures AreGathered(dims + Range(Axis(idx, n), Axis(idx, n + 1)), idx, n + 1)
  {
    hide Gathered;
    AxisMonotone(idx, n, n + 1);
    var more := Range(Axis(idx, n), Axis(idx, n + 1));
    forall d: int
      ensures d in dims + more <==> Gathered(idx, n + 1, d)
      ensures d in dims ==> d < Axis(idx, n)
    {
      GatheredStep(idx, n, d);
      InRange(Axis(idx, n), Axis(idx, n + 1), d);
      if Gathered(idx, n, d) {
        GatheredBelow(idx, n, d);
      }
    }
    assert forall a | 0 <= a < |dims| :: dims[a] in dims;
  }

  lemma InRange(lo: nat, hi: nat, d: int)
    requires lo <= hi
    ensures d in Range(lo, hi) <==> lo <= d < hi
  {
    if lo <= d < hi {
      assert Range(lo, hi)[d - lo] == d;
    }
  }

  lemma GatherNothing(dims: seq<int>, idx: seq<Element>, n: nat)
    requires n < |idx| && !idx[n].IndexTensor? && AreGathered(dims, idx, n)
    ensures AreGathered(dims, idx, n + 1)
  {
    hide Gathered;
    forall d: int
      ensures Gathered(idx, n + 1, d) <==> Gathered(idx, n, d)
    {
      GatheredStep(idx, n, d);
    }
  }

  lemma NothingGathered(idx: seq<Element>)
    ensures AreGathered([], idx, 0)
  {
  }

  lemma CountStep(idx: seq<Element>, n: nat, w: nat)
    requires n < |idx| && idx[n].IndexTensor?
    ensures CountTensors(idx, n + 1) * w == CountTensors(idx, n) * w + w
  {
  }

  /** The helper that computes the dimensions, from an empty list on. */
  method ComputeIdxTensorExtent(idx: seq<Element>, shape: seq<nat>) returns (r: Result<seq<int>>)
    requires SameShapes(idx, |idx|, shape)
    ensures r.Ok? <==> Width(shape) > 0 || CountTensors(idx, |idx|) == 0
    ensures r.Ok? ==> AreGathered(r.value, idx, |idx|) && |r.value| == CountTensors(idx, |idx|) * Width(shape)
    ensures r.Ok? && shape != [] ==> |r.value| == CountTensors(idx, |idx|) * shape[|shape| - 1]
  {
    hide AreGathered;
    var collapsedDims: seq<int> := [];
    var prevIdx: int := -1;
    NothingGathered(idx);
    for idxPos := 0 to |idx|
      invariant prevIdx + 1 == Axis(idx, idxPos)
      invariant AreGathered(collapsedDims, idx, idxPos)
      invariant |collapsedDims| == CountTensors(idx, idxPos) * Width(shape)
      invariant Width(shape) > 0 || CountTensors(idx, idxPos) == 0
    {
      var e := idx[idxPos];
      if e.IndexTensor? {
        if Width(e.shape) == 0 {
          CountMonotone(idx, idxPos + 1, |idx|);
          return IndexError;
        }
        GatherTensor(collapsedDims, idx, idxPos);
        CountStep(idx, idxPos, Width(shape));
        collapsedDims := collapsedDims + Range(prevIdx + 1, prevIdx + 1 + Width(e.shape));
        prevIdx := collapsedDims[|collapsedDims| - 1];
      } else {
        GatherNothing(collapsedDims, idx, idxPos);
        prevIdx := prevIdx + 1;
      }
    }
    return Ok(collapsedDims);
  }

  lemma {:induction false} CountMonotone(idx: seq<Element>, a: nat, b: nat)
    requires a <= b <= |idx|
    ensures CountTensors(idx, a) <= CountTensors(idx, b)
    decreases b
  {
    if a < b {
      CountMonotone(idx, a, b - 1);
    }
  }

  // ----- The indexer -----

  /** The shapes of the index tensors to concatenate, and the dimensions to gather. */
  datatype Indexer = Indexer(indices: seq<seq<nat>>, gatherDims: seq<int>)

  /** The shapes of the index tensors among the first `n` elements. */
  function Tensors(idx: seq<Element>, n: nat): (r: seq<seq<nat>>)
    requires n <= |idx|
    ensures |r| == CountTensors(idx, n)
  {
    if n == 0 then [] else Tensors(idx, n - 1) + if idx[n - 1].IndexTensor? then [idx[n - 1].shape] else []
  }

  /** The positions of the index tensors among the first `n` elements. */
  function AdvancedAxes(idx: seq<Element>, n: nat): (r: seq<nat>)
    requires n <= |idx|
    ensures |r| == CountTensors(idx, n)
    ensures forall k | 0 <= k < |r| :: r[k] < n && idx[r[k]].IndexTensor?
  {
    if n == 0 then [] else AdvancedAxes(idx, n - 1) + if idx[n - 1].IndexTensor? then [n - 1] else []
  }

  predicate Contiguous(axes: seq<nat>) {
    forall k | 0 <= k < |axes| - 1 :: axes[k + 1] == axes[k] + 1
  }

  /** The number of coordinates of the concatenated index tensors. */
  function TotalWidth(shapes: seq<seq<nat>>): nat {
    if shapes == [] then 0 else TotalWidth(shapes[..|shapes| - 1]) + Width(shapes[|shapes| - 1])
  }

  predicate AllSame(shapes: seq<seq<nat>>) {
    forall k | 0 <= k < |shapes| :: shapes[k] == shapes[0]
  }

  function Insert(x: int, xs: seq<int>): seq<int> {
    if xs == [] || xs[|xs| - 1] <= x then xs + [x]
    else Insert(x, xs[..|xs| - 1]) + [xs[|xs| - 1]]
  }

  function Sorted(xs: seq<int>): seq<int> {
    if xs == [] then [] else Insert(xs[|xs| - 1], Sorted(xs[..|xs| - 1]))
  }

  lemma {:induction false} SortedIncreasing(xs: seq<int>)
    requires Increasing(xs)
    ensures Sorted(xs) == xs
    decreases |xs|
  {
    if xs != [] {
      SortedIncreasing(xs[..|xs| - 1]);
    }
  }

  lemma {:induction false} TensorsAreSame(idx: seq<Element>, n: nat, shape: seq<nat>)
    requires n <= |idx|
    ensures (forall k | 0 <= k < |Tensors(idx, n)| :: Tensors(idx, n)[k] == shape) <==> SameShapes(idx, n, shape)
    decreases n
  {
    if n > 0 {
      TensorsAreSame(idx, n - 1, shape);
      var t, u := Tensors(idx, n), Tensors(idx, n - 1);
      assert forall k | 0 <= k < |u| :: t[k] == u[k];
      assert idx[n - 1].IndexTensor? ==> t[|u|] == idx[n - 1].shape;
      assert SameShapes(idx, n, shape)
        <==> SameShapes(idx, n - 1, shape) && (idx[n - 1].IndexTensor? ==> idx[n - 1].shape == shape);
    }
  }

  lemma {:induction false} WidthOfSame(shapes: seq<seq<nat>>, shape: seq<nat>)
    requires forall k | 0 <= k < |shapes| :: shapes[k] == shape
    ensures TotalWidth(shapes) == |shapes| * Width(shape)
    decreases |shapes|
  {
    if shapes != [] {
      WidthOfSame(shapes[..|shapes| - 1], shape);
      assert |shapes| * Width(shape) == (|shapes| - 1) * Width(shape) + Width(shape);
    }
  }

  /** What the indexer of a canonical tuple is. */
  ghost predicate IsIndexerOf(indexer: Indexer, idx: seq<Element>) {
    && indexer.indices == Tensors(idx, |idx|)
    && AreGathered(indexer.gatherDims, idx, |idx|)
    && |indexer.gatherDims| == TotalWidth(indexer.indices)
  }

  lemma IndexerIntro(idx: seq<Element>, dims: seq<int>)
    requires CountTensors(idx, |idx|) > 0
    requires var shapes := Tensors(idx, |idx|); AllSame(shapes) && |dims| == |shapes| * Width(shapes[0])
    requires AreGathered(dims, idx, |idx|)
    ensures IsIndexerOf(Indexer(Tensors(idx, |idx|), dims), idx) && Sorted(dims) == dims
  {
    var shapes := Tensors(idx, |idx|);
    WidthOfSame(shapes, shapes[0]);
    SortedIncreasing(dims);
  }

  lemma NoTensors(idx: seq<Element>)
    requires CountTensors(idx, |idx|) == 0
    ensures IsIndexerOf(Indexer([], []), idx)
  {
    forall d: int
      ensures !Gathered(idx, |idx|, d)
    {
      if Gathered(idx, |idx|, d) {
        var k :| 0 <= k < |idx| && idx[k].IndexTensor?;
        CountMonotone(idx, k + 1, |idx|);
      }
    }
  }

  /** Whether a canonical tuple can be processed. */
  predicate Supported(idx: seq<Element>) {
    var shapes := Tensors(idx, |idx|);
    shapes != [] ==> AllSame(shapes) && Width(shapes[0]) > 0
  }

  /** Processes a canonical tuple. All index tensors are handled at once: at the first of them if
      they are contiguous, at the start otherwise. Full slices only advance the axes. */
  method ProcessElements(idx: seq<Element>) returns (r: Result<Indexer>)
    requires forall k | 0 <= k < |idx| :: !idx[k].Ellipsis?
    ensures r.Ok? <==> Supported(idx)
    ensures r.Ok? ==> IsIndexerOf(r.value, idx)
  {
    hide AreGathered, Sorted;
    var axes, shapes := AdvancedAxes(idx, |idx|), Tensors(idx, |idx|);
    var contiguous := Contiguous(axes);
    var indices: seq<seq<nat>>, collapsedDims: seq<int> := [], [];
    ghost var start := if axes == [] then |idx| else if contiguous then axes[0] else 0;
    for i := 0 to |idx|
      invariant i <= start ==> indices == [] && collapsedDims == []
      invariant i > start ==> Supported(idx) && indices == shapes && AreGathered(collapsedDims, idx, |idx|)
      invariant i > start ==> |collapsedDims| == |shapes| * Width(shapes[0])
    {
      if axes != [] && ((contiguous && i == axes[0]) || (!contiguous && i == 0)) {
        if !AllSame(shapes) {
          return IndexError;
        }
        indices := indices + shapes;
        TensorsAreSame(idx, |idx|, shapes[0]);
        var dims := ComputeIdxTensorExtent(idx, shapes[0]);
        if dims.IndexError? {
          return IndexError;
        }
        collapsedDims := dims.value;
      }
    }
    if axes == [] {
      NoTensors(idx);
      return Ok(Indexer([], []));
    }
    IndexerIntro(idx, collapsedDims);
    return Ok(Indexer(indices, Sorted(collapsedDims)));
  }

  /** The whole indexing. The canonical tuple has one element per dimension of the tensor. */
  method IndicesToIndexer(idx: seq<Element>, rank: nat) returns (r: Result<Indexer>, canonical: seq<Element>)
    ensures r.Ok? ==> CountReal(idx) <= rank && CountEllipses(idx) <= 1
    ensures CountReal(idx) <= rank && CountEllipses(idx) <= 1 ==> IsCanonical(idx, rank, canonical)
    ensures CountReal(idx) <= rank && CountEllipses(idx) <= 1 ==> (r.Ok? <==> Supported(canonical))
    ensures r.Ok? ==> IsIndexerOf(r.value, canonical)
    ensures r.Ok? ==> ((forall d | d in r.value.gatherDims :: 0 <= d < rank) <==> HasRoom(canonical))
  {
    hide Supported, IsIndexerOf, HasRoom;
    canonical := [];
    r := IndexError;
    var c := CanonicalizeTupleIndex(idx, rank);
    if c.Ok? {
      canonical := c.value;
      r := ProcessElements(canonical);
      if r.Ok? {
        WithinRank(canonical, r.value);
      }
    }
  }

  // ----- When the gathered dimensions exist -----

  /** The number of full slices after the last index tensor. */
  function Trailing(idx: seq<Element>, n: nat): (t: nat)
    requires n <= |idx|
    ensures t <= n && (t < n ==> idx[n - t - 1].IndexTensor?)
    ensures forall k | n - t <= k < n :: !idx[k].IndexTensor?
  {
    if n == 0 || idx[n - 1].IndexTensor? then 0 else 1 + Trailing(idx, n - 1)
  }

  /** There are as many full slices after the last index tensor as there are coordinates beyond
      the first of each index tensor. */
  predicate HasRoom(idx: seq<Element>) {
    TotalWidth(Tensors(idx, |idx|)) - CountTensors(idx, |idx|) <= Trailing(idx, |idx|)
  }

  lemma {:induction false} AxisIsWidths(idx: seq<Element>, n: nat)
    requires n <= |idx|
    ensures Axis(idx, n) == n + TotalWidth(Tensors(idx, n)) - CountTensors(idx, n)
    decreases n
  {
    if n > 0 {
      AxisIsWidths(idx, n - 1);
      var t := Tensors(idx, n);
      if idx[n - 1].IndexTensor? {
        assert t[..|t| - 1] == Tensors(idx, n - 1);
      } else {
        assert t == Tensors(idx, n - 1);
      }
    }
  }

  lemma {:induction false} TensorsEnd(idx: seq<Element>, a: nat, b: nat)
    requires a <= b <= |idx| && forall k | a <= k < b :: !idx[k].IndexTensor?
    ensures Tensors(idx, a) == Tensors(idx, b)
    decreases b
  {
    if a < b {
      TensorsEnd(idx, a, b - 1);
    }
  }

  /** The gathered dimensions are dimensions of the tensor exactly if there is room for the
      coordinates; with one coordinate per index tensor there always is. */
  lemma {:induction false} WithinRank(idx: seq<Element>, indexer: Indexer)
    requires Supported(idx) && IsIndexerOf(indexer, idx)
    ensures (forall d | d in indexer.gatherDims :: 0 <= d < |idx|) <==> HasRoom(idx)
  {
    hide Supported;
    var rank := |idx|;
    var last := rank - Trailing(idx, rank);
    TensorsEnd(idx, last, rank);
    AxisIsWidths(idx, last);
    forall d | d in indexer.gatherDims
      ensures 0 <= d < Axis(idx, last)
    {
      assert Gathered(idx, rank, d);
      GatheredUpTo(idx, last, d);
    }
    if last > 0 {
      LastGathered(idx, last);
      assert Axis(idx, last) - 1 in indexer.gatherDims;
    }
  }

  lemma GatheredUpTo(idx: seq<Element>, last: nat, d: int)
    requires last <= |idx| && forall k | last <= k < |idx| :: !idx[k].IndexTensor?
    requires Gathered(idx, |idx|, d)
    ensures 0 <= d < Axis(idx, last)
  {
    var k :| 0 <= k < |idx| && idx[k].IndexTensor? && Axis(idx, k) <= d < Axis(idx, k + 1);
    assert k < last;
    AxisMonotone(idx, k + 1, last);
  }

  lemma LastGathered(idx: seq<Element>, last: nat)
    requires Supported(idx) && 0 < last <= |idx| && idx[last - 1].IndexTensor?
    ensures Gathered(idx, |idx|, Axis(idx, last) - 1)
  {
    var shapes := Tensors(idx, |idx|);
    CountMonotone(idx, last, |idx|);
    TensorsAreSame(idx, |idx|, shapes[0]);
    assert idx[last - 1].shape == shapes[0];
    assert Axis(idx, last - 1) <= Axis(idx, last) - 1 < Axis(idx, last);
  }

  /** With one coordinate per index tensor there is always room. */
  lemma {:induction false} SingleCoordinatesFit(idx: seq<Element>)
    requires Supported(idx) && (forall k | 0 <= k < |idx| && idx[k].IndexTensor? :: Width(idx[k].shape) == 1)
    ensures HasRoom(idx)
  {
    var shapes := Tensors(idx, |idx|);
    if shapes != [] {
      var axes := AdvancedAxes(idx, |idx|);
      TensorsAreSame(idx, |idx|, shapes[0]);
      assert idx[axes[0]].shape == shapes[0];
      WidthOfSame(shapes, shapes[0]);
    }
  }

  /** An index tensor with two coordinates for the last dimension gathers a dimension that does
      not exist. */
  lemma TwoCoordinatesAtTheEnd()
    ensures var idx := [Full, IndexTensor([5, 2])];
            Supported(idx) && !HasRoom(idx) && AreGathered([1, 2], idx, 2)
  {
    hide AreGathered, Gathered;
    var idx := [Full, IndexTensor([5, 2])];
    assert Tensors(idx, 1) == [] && Tensors(idx, 2) == [[5, 2]];
    assert TotalWidth([[5, 2]]) == TotalWidth([]) + 2;
    NothingGathered(idx);
    GatherNothing([], idx, 0);
    GatherTensor([], idx, 1);
    assert Axis(idx, 0) == 0 && Axis(idx, 1) == 1 && Extent(idx[1]) == 2;
    assert [] + Range(1, 3) == [1, 2];
  }
}
