/** The lowering of a broadcast: unit dimensions are collapsed into their neighbours, and the
    collapsed tensor is then broadcast along new dimensions. */
module Broadcast {
  import opened Sequences
  import opened Shapes

  datatype Tensor = Tensor(shape: seq<nat>, at: seq<nat> -> int)

  /** What the verifier of the broadcast op demands: only unit dimensions change. */
  predicate Broadcastable(input: seq<nat>, result: seq<nat>) {
    |input| == |result| && forall d | 0 <= d < |input| :: input[d] != result[d] ==> input[d] == 1
  }

  /** The dimensions below `n` that are broadcast, and those that are kept. */
  function BroadcastDims(input: seq<nat>, result: seq<nat>, n: nat): seq<nat>
    requires n <= |input| == |result|
  {
    if n == 0 then []
    else BroadcastDims(input, result, n - 1) + if input[n - 1] != result[n - 1] then [n - 1] else []
  }

  function KeptDims(input: seq<nat>, result: seq<nat>, n: nat): seq<nat>
    requires n <= |input| == |result|
  {
    if n == 0 then []
    else KeptDims(input, result, n - 1) + if input[n - 1] != result[n - 1] then [] else [n - 1]
  }

  /** Where the group of kept dimension `g` starts and ends. */
  function GroupStart(kept: seq<nat>, g: nat): nat
    requires g <= |kept|
  {
    if g == 0 then 0 else kept[g - 1] + 1
  }

  function GroupEnd(kept: seq<nat>, rank: nat, g: nat): nat
    requires g < |kept|
  {
    if g == |kept| - 1 then rank else kept[g] + 1
  }

  /** The number of dimensions in the first `n` groups. */
  function Covered(kept: seq<nat>, rank: nat, n: nat): nat
    requires n <= |kept|
  {
    if n == 0 then 0 else GroupEnd(kept, rank, n - 1)
  }

  // ----- Facts about kept dimensions -----

  lemma {:induction false} CountDims(input: seq<nat>, result: seq<nat>, n: nat)
    requires n <= |input| == |result|
    ensures |KeptDims(input, result, n)| + |BroadcastDims(input, result, n)| == n
    decreases n
  {
    if n > 0 {
      CountDims(input, result, n - 1);
    }
  }

  lemma NothingKept(input: seq<nat>, result: seq<nat>)
    requires |input| == |result|
    ensures KeptDims(input, result, 0) == []
  {
  }

  lemma {:induction false} KeptPrefix(input: seq<nat>, result: seq<nat>, a: nat, b: nat)
    requires a <= b <= |input| == |result|
    ensures KeptDims(input, result, a) <= KeptDims(input, result, b)
    decreases b
  {
    if a < b {
      KeptPrefix(input, result, a, b - 1);
    }
  }

  /** The kept dimensions are those that do not change, in increasing order. */
  ghost predicate Selects(kept: seq<nat>, input: seq<nat>, result: seq<nat>, n: nat)
    requires n <= |input| == |result|
  {
    && (forall g | 0 <= g < |kept| :: kept[g] < n && input[kept[g]] == result[kept[g]])
    && (forall g, h | 0 <= g < h < |kept| :: kept[g] < kept[h])
    && (forall d | 0 <= d < n && input[d] == result[d] :: d in kept)
  }

  lemma {:induction false} KeptOrdered(input: seq<nat>, result: seq<nat>, n: nat)
    requires n <= |input| == |result|
    ensures Selects(KeptDims(input, result, n), input, result, n)
    decreases n
  {
    if n > 0 {
      KeptOrdered(input, result, n - 1);
      var before, kept := KeptDims(input, result, n - 1), KeptDims(input, result, n);
      if input[n - 1] == result[n - 1] {
        assert kept == before + [n - 1];
      } else {
        assert kept == before;
      }
    }
  }

  lemma {:induction false} BroadcastDimsAre(input: seq<nat>, result: seq<nat>, n: nat)
    requires n <= |input| == |result|
    ensures forall d: nat :: d in BroadcastDims(input, result, n) <==> d < n && input[d] != result[d]
    ensures Increasing(BroadcastDims(input, result, n))
    decreases n
  {
    if n > 0 {
      BroadcastDimsAre(input, result, n - 1);
      IncreasingSnoc(BroadcastDims(input, result, n - 1), n - 1);
    }
  }

  lemma IncreasingSnoc(dims: seq<nat>, d: nat)
    requires Increasing(dims) && forall e: nat | e in dims :: e < d
    ensures Increasing(dims + [d])
  {
    forall j, k | 0 <= j < k < |dims + [d]|
      ensures (dims + [d])[j] < (dims + [d])[k]
    {
      assert dims[j] in dims;
    }
  }

  /** If dimension `d` is kept and `g` dimensions are kept before it, it is the kept dimension `g`. */
  lemma {:induction false} KeptAt(input: seq<nat>, result: seq<nat>, d: nat)
    requires d < |input| == |result| && input[d] == result[d]
    ensures |KeptDims(input, result, d)| < |KeptDims(input, result, |input|)|
    ensures KeptDims(input, result, |input|)[|KeptDims(input, result, d)|] == d
  {
    KeptPrefix(input, result, d + 1, |input|);
    assert KeptDims(input, result, d + 1) == KeptDims(input, result, d) + [d];
  }

  /** Between two kept dimensions there are only broadcast dimensions. */
  lemma {:induction false} OnlyBroadcastBetween(input: seq<nat>, result: seq<nat>, kept: seq<nat>, g: nat, d: nat)
    requires |input| == |result| && Selects(kept, input, result, |input|) && g < |kept|
    requires GroupStart(kept, g) <= d < GroupEnd(kept, |input|, g) && d < |input| && d != kept[g]
    ensures input[d] != result[d]
  {
    if input[d] == result[d] {
      var h :| 0 <= h < |kept| && kept[h] == d;
    }
  }

  /** Each group is a range of dimensions that contains its kept dimension. */
  ghost predicate IsReassociation(kept: seq<nat>, rank: nat, groups: seq<seq<nat>>) {
    |groups| == |kept| && Reassociated(kept, rank, groups, |groups|)
  }

  ghost predicate Reassociated(kept: seq<nat>, rank: nat, groups: seq<seq<nat>>, n: nat)
    requires n <= |groups| == |kept|
  {
    forall g | 0 <= g < n ::
      && GroupStart(kept, g) <= kept[g] < GroupEnd(kept, rank, g) <= rank
      && groups[g] == Range(GroupStart(kept, g), GroupEnd(kept, rank, g))
  }

  lemma NothingReassociated(kept: seq<nat>, rank: nat, groups: seq<seq<nat>>)
    requires |groups| == |kept|
    ensures Reassociated(kept, rank, groups, 0)
  {
  }

  lemma ReassociatedStep(kept: seq<nat>, rank: nat, groups: seq<seq<nat>>, n: nat)
    requires n < |groups| == |kept| && Reassociated(kept, rank, groups, n)
    requires GroupStart(kept, n) <= kept[n] < GroupEnd(kept, rank, n) <= rank
    ensures Reassociated(kept, rank, groups[n := Range(GroupStart(kept, n), GroupEnd(kept, rank, n))], n + 1)
  {
  }

  // ----- The reassociation -----

  /** The loop that finds the dimensions to broadcast. */
  method FindBroadcastDims(input: seq<nat>, result: seq<nat>) returns (dims: seq<nat>)
    requires |input| == |result|
    ensures dims == BroadcastDims(input, result, |input|)
    ensures forall d: nat :: d in dims <==> d < |input| && input[d] != result[d]
    ensures Increasing(dims)
  {
    BroadcastDimsAre(input, result, |input|);
    dims := [];
    for idx := 0 to |input|
      invariant dims == BroadcastDims(input, result, idx)
    {
      if input[idx] != result[idx] {
        dims := dims + [idx];
      }
    }
  }

  /** The loop that assigns each source dimension to a dimension of the collapsed tensor: each
      group is a range that ends with its kept dimension, and the last one takes what is left. */
  method Reassociate(input: seq<nat>, result: seq<nat>) returns (groups: seq<seq<nat>>)
    requires |input| == |result| && Broadcastable(input, result)
    ensures IsReassociation(KeptDims(input, result, |input|), |input|, groups)
  {
    hide KeptDims, BroadcastDims, Range, Broadcastable, Reassociated;
    var rank := |input|;
    var dims := FindBroadcastDims(input, result);
    NothingKept(input, result);
    CountDims(input, result, rank);
    var collapsedRank := rank - |dims|;
    ghost var kept := KeptDims(input, result, rank);
    groups := seq(collapsedRank, _ => []);
    NothingReassociated(kept, rank, groups);
    var i, j := 0, 0;
    while i < collapsedRank && j < rank
      invariant 0 <= i <= collapsedRank == |kept| == |groups| && j <= rank
      invariant i < collapsedRank ==> j == GroupStart(kept, i) && |KeptDims(input, result, j)| == i
      invariant Reassociated(kept, rank, groups, i)
      invariant forall g | i <= g < collapsedRank :: groups[g] == []
    {
      ghost var before := groups;
      j, groups := FillGroup(input, result, groups, i, j);
      ReassociatedStep(kept, rank, before, i);
      i := i + 1;
    }
  }

  /** The inner do-while loop: pushes at least one dimension into group `i`. */
  method FillGroup(input: seq<nat>, result: seq<nat>, groups: seq<seq<nat>>, i: nat, start: nat)
    returns (j: nat, groups': seq<seq<nat>>)
    requires Broadcastable(input, result)
    requires |groups| == |KeptDims(input, result, |input|)| && i < |groups| && groups[i] == []
    requires start < |input| && start == GroupStart(KeptDims(input, result, |input|), i)
    requires |KeptDims(input, result, start)| == i
    ensures var kept := KeptDims(input, result, |input|);
            && GroupStart(kept, i) <= kept[i] < GroupEnd(kept, |input|, i) <= |input|
            && j == GroupEnd(kept, |input|, i)
            && groups' == groups[i := Range(start, j)]
    ensures i + 1 < |groups| ==> |KeptDims(input, result, j)| == i + 1
  {
    var rank, collapsedRank := |input|, |groups|;
    ghost var kept := KeptDims(input, result, rank);
    j, groups' := start, groups;
    assert Range(start, start) == [];
    var more := true;
    while more
      invariant start <= j <= rank && (more ==> j < rank) && (!more ==> start < j)
      invariant groups' == groups[i := Range(start, j)]
      invariant i < collapsedRank - 1 ==> more ==> |KeptDims(input, result, j)| == i
      invariant i < collapsedRank - 1 ==> !more && j < rank ==> j == kept[i] + 1 && |KeptDims(input, result, j)| == i + 1
      invariant i < collapsedRank - 1 ==> !more && j == rank ==> |KeptDims(input, result, j)| <= i + 1
      invariant i == collapsedRank - 1 ==> (more <==> j < rank)
      decreases more, rank - j
    {
      var dimToPush := j;
      j := j + 1;
      groups' := groups'[i := groups'[i] + [dimToPush]];
      assert Range(start, j) == Range(start, dimToPush) + [dimToPush];
      if input[dimToPush] == result[dimToPush] && i < collapsedRank - 1 {
        KeptAt(input, result, dimToPush);
      }
      more := j < rank && (input[dimToPush] != result[dimToPush] || i == collapsedRank - 1);
    }
    KeptOrdered(input, result, rank);
    LastGroup(input, result, i, start);
  }

  /** The kept dimension of a group is not before the start of the group. */
  lemma {:induction false} LastGroup(input: seq<nat>, result: seq<nat>, i: nat, start: nat)
    requires start <= |input| == |result| && |KeptDims(input, result, start)| == i
    requires i < |KeptDims(input, result, |input|)|
    ensures start <= KeptDims(input, result, |input|)[i]
  {
    var kept := KeptDims(input, result, |input|);
    KeptOrdered(input, result, |input|);
    if kept[i] < start {
      KeptAt(input, result, kept[i]);
      KeptPrefix(input, result, kept[i] + 1, start);
    }
  }

  // ----- The collapsed and broadcast tensor -----

  function Sizes(shape: seq<nat>, group: seq<nat>): seq<nat>
    requires forall k | 0 <= k < |group| :: group[k] < |shape|
  {
    seq(|group|, k requires 0 <= k < |group| => shape[group[k]])
  }

  predicate GroupsOf(shape: seq<nat>, groups: seq<seq<nat>>) {
    forall g | 0 <= g < |groups| :: forall k | 0 <= k < |groups[g]| :: groups[g][k] < |shape|
  }

  /** The source index of an index of the collapsed tensor, for the first `n` groups. */
  function SourceIndex(shape: seq<nat>, groups: seq<seq<nat>>, idx: seq<nat>, n: nat): seq<nat>
    requires GroupsOf(shape, groups) && n <= |groups| == |idx|
  {
    if n == 0 then []
    else
      SourceIndex(shape, groups, idx, n - 1) + Delinearize(Sizes(shape, groups[n - 1]), idx[n - 1])
  }

  /** `tensor.collapse_shape`; without groups, all dimensions are unit dimensions. */
  function Collapse(src: Tensor, groups: seq<seq<nat>>): Tensor
    requires GroupsOf(src.shape, groups)
  {
    Tensor(seq(|groups|, g requires 0 <= g < |groups| => Product(Sizes(src.shape, groups[g]))),
           (idx: seq<nat>) =>
             if |idx| != |groups| then 0
             else if groups == [] then src.at(seq(|src.shape|, _ => 0))
             else src.at(SourceIndex(src.shape, groups, idx, |groups|)))
  }

  /** The components of an index for the dimensions below `n` that are not in `dims`. */
  function Drop(idx: seq<nat>, dims: seq<nat>, n: nat): seq<nat>
    requires n <= |idx|
  {
    if n == 0 then [] else Drop(idx, dims, n - 1) + if n - 1 in dims then [] else [idx[n - 1]]
  }

  /** `linalg.broadcast`: new dimensions are ignored when elements are looked up. */
  function BroadcastTo(src: Tensor, shape: seq<nat>, dims: seq<nat>): Tensor {
    Tensor(shape, (idx: seq<nat>) => src.at(Drop(idx, dims, |idx|)))
  }

  /** The whole lowering. */
  method LowerBroadcast(src: Tensor, result: seq<nat>) returns (r: Tensor)
    requires Broadcastable(src.shape, result)
    ensures r.shape == result
    ensures forall idx | InBounds(idx, result) :: r.at(idx) == src.at(UnitIndex(src.shape, result, idx))
    ensures forall idx, from | InBounds(idx, result) && |from| == |idx|
                               && (forall d | 0 <= d < |idx| ::
                                     from[d] == if src.shape[d] != result[d] then 0 else idx[d]) ::
              r.at(idx) == src.at(from)
  {
    var dims := FindBroadcastDims(src.shape, result);
    var groups := Reassociate(src.shape, result);
    assert GroupsOf(src.shape, groups);
    var collapsed := Collapse(src, groups);
    r := BroadcastTo(collapsed, result, dims);
    forall idx | InBounds(idx, result)
      ensures r.at(idx) == src.at(UnitIndex(src.shape, result, idx))
    {
      LookupIsRight(src, result, dims, groups, idx);
    }
    forall idx, from | InBounds(idx, result) && |from| == |idx|
                       && (forall d | 0 <= d < |idx| :: from[d] == if src.shape[d] != result[d] then 0 else idx[d])
      ensures r.at(idx) == src.at(from)
    {
      assert from == UnitIndex(src.shape, result, idx);
    }
  }

  /** The index of the source element of a broadcast: zero in the broadcast dimensions. */
  function UnitIndex(input: seq<nat>, result: seq<nat>, idx: seq<nat>): (r: seq<nat>)
    requires |input| == |result| == |idx|
    ensures |r| == |idx|
  {
    seq(|idx|, d requires 0 <= d < |idx| => if input[d] != result[d] then 0 else idx[d])
  }

  /** Dropping the broadcast dimensions leaves the components of the kept ones. */
  lemma {:induction false} DropIsKept(input: seq<nat>, result: seq<nat>, dims: seq<nat>, idx: seq<nat>, n: nat)
    requires n <= |input| == |result| == |idx|
    requires forall d: nat | d < |input| :: d in dims <==> input[d] != result[d]
    ensures var kept, dropped := KeptDims(input, result, n), Drop(idx, dims, n);
            && |dropped| == |kept|
            && forall g | 0 <= g < |kept| :: kept[g] < |idx| && dropped[g] == idx[kept[g]]
    decreases n
  {
    if n > 0 {
      DropIsKept(input, result, dims, idx, n - 1);
    }
  }

  lemma {:induction false} ProductOfOnes(sizes: seq<nat>)
    requires forall k | 0 <= k < |sizes| :: sizes[k] == 1
    ensures Product(sizes) == 1 && Delinearize(sizes, 0) == seq(|sizes|, _ => 0)
    decreases |sizes|
  {
    if sizes != [] {
      ProductOfOnes(sizes[1..]);
    }
  }

  /** A group with one dimension that is not a unit: the position is the index of that dimension. */
  lemma {:induction false} DelinearizeSingle(sizes: seq<nat>, p: nat, c: nat)
    requires p < |sizes| && c < sizes[p]
    requires forall k | 0 <= k < |sizes| && k != p :: sizes[k] == 1
    ensures |Delinearize(sizes, c)| == |sizes|
    ensures forall k | 0 <= k < |sizes| :: Delinearize(sizes, c)[k] == if k == p then c else 0
    decreases |sizes|
  {
    var rest := sizes[1..];
    if p == 0 {
      ProductOfOnes(rest);
      assert c / 1 == c && c % 1 == 0;
    } else {
      DelinearizeSingle(rest, p - 1, c);
      ProductSingle(rest, p - 1);
      SmallQuotient(c, sizes[p]);
      assert Delinearize(sizes, c) == [0] + Delinearize(rest, c);
    }
  }

  lemma {:induction false} ProductSingle(sizes: seq<nat>, p: nat)
    requires p < |sizes| && forall k | 0 <= k < |sizes| && k != p :: sizes[k] == 1
    ensures Product(sizes) == sizes[p]
    decreases |sizes|
  {
    if p == 0 {
      ProductOfOnes(sizes[1..]);
    } else {
      ProductSingle(sizes[1..], p - 1);
    }
  }

  lemma SmallQuotient(c: nat, n: nat)
    requires c < n
    ensures c / n == 0 && c % n == c
  {
  }

  lemma {:induction false} GroupIsUnitSlice(input: seq<nat>, result: seq<nat>, kept: seq<nat>,
                                            idx: seq<nat>, g: nat)
    requires Broadcastable(input, result) && Selects(kept, input, result, |input|)
    requires InBounds(idx, result) && g < |kept|
    requires GroupStart(kept, g) <= kept[g] < GroupEnd(kept, |input|, g) <= |input|
    ensures var lo, hi := GroupStart(kept, g), GroupEnd(kept, |input|, g);
            Delinearize(Sizes(input, Range(lo, hi)), idx[kept[g]]) == UnitIndex(input, result, idx)[lo..hi]
  {
    var lo, hi := GroupStart(kept, g), GroupEnd(kept, |input|, g);
    var sizes := Sizes(input, Range(lo, hi));
    var p := kept[g] - lo;
    forall d | lo <= d < hi
      ensures input[d] == result[d] <==> d == lo + p
    {
      if d != lo + p {
        OnlyBroadcastBetween(input, result, kept, g, d);
      }
    }
    forall k | 0 <= k < hi - lo && k != p
      ensures sizes[k] == 1
    {
      assert input[lo + k] != result[lo + k];
    }
    var c := idx[kept[g]];
    DelinearizeSingle(sizes, p, c);
    UnitSlice(input, result, idx, lo, hi, p, Delinearize(sizes, c));
  }

  /** A slice of the unit index with one kept dimension. */
  lemma UnitSlice(input: seq<nat>, result: seq<nat>, idx: seq<nat>, lo: nat, hi: nat, p: nat, s: seq<nat>)
    requires |input| == |result| == |idx| && lo <= hi <= |idx| && |s| == hi - lo && p < hi - lo
    requires forall d | lo <= d < hi :: input[d] == result[d] <==> d == lo + p
    requires forall k | 0 <= k < hi - lo :: s[k] == if k == p then idx[lo + p] else 0
    ensures s == UnitIndex(input, result, idx)[lo..hi]
  {
    var u := UnitIndex(input, result, idx);
    forall k | 0 <= k < hi - lo
      ensures s[k] == u[lo..hi][k]
    {
      assert u[lo..hi][k] == u[lo + k];
    }
  }

  ghost predicate Setting(input: seq<nat>, result: seq<nat>, kept: seq<nat>, groups: seq<seq<nat>>,
                          idx: seq<nat>, dropped: seq<nat>) {
    && Broadcastable(input, result) && Selects(kept, input, result, |input|)
    && IsReassociation(kept, |input|, groups) && GroupsOf(input, groups)
    && InBounds(idx, result) && |groups| == |dropped|
    && forall g | 0 <= g < |kept| :: dropped[g] == idx[kept[g]]
  }

  lemma {:induction false} GroupOfSetting(input: seq<nat>, result: seq<nat>, kept: seq<nat>,
                                          groups: seq<seq<nat>>, idx: seq<nat>, dropped: seq<nat>, g: nat)
    requires Setting(input, result, kept, groups, idx, dropped) && g < |kept|
    ensures var lo, hi := GroupStart(kept, g), GroupEnd(kept, |input|, g);
            && lo <= hi <= |input| == |idx|
            && (forall k | 0 <= k < |groups[g]| :: groups[g][k] < |input|)
            && Delinearize(Sizes(input, groups[g]), dropped[g]) == UnitIndex(input, result, idx)[lo..hi]
  {
    hide Delinearize, Selects, UnitIndex, Range, Sizes;
    GroupIsUnitSlice(input, result, kept, idx, g);
    assert groups[g] == Range(GroupStart(kept, g), GroupEnd(kept, |input|, g));
  }

  lemma SettingFacts(input: seq<nat>, result: seq<nat>, kept: seq<nat>,
                     groups: seq<seq<nat>>, idx: seq<nat>, dropped: seq<nat>)
    requires Setting(input, result, kept, groups, idx, dropped)
    ensures |input| == |result| == |idx| && |kept| == |groups| == |dropped| && GroupsOf(input, groups)
  {
  }

  /** The source index of the dropped index is the index with zeros in the broadcast dimensions. */
  lemma {:induction false} SourceIndexIsUnitIndex(input: seq<nat>, result: seq<nat>, kept: seq<nat>,
                                                  groups: seq<seq<nat>>, idx: seq<nat>, dropped: seq<nat>, n: nat)
    requires Setting(input, result, kept, groups, idx, dropped) && n <= |kept|
    ensures Covered(kept, |input|, n) <= |idx|
    ensures SourceIndex(input, groups, dropped, n) == UnitIndex(input, result, idx)[..Covered(kept, |input|, n)]
    decreases n
  {
    hide Setting, GroupsOf, Delinearize, UnitIndex, Sizes;
    SettingFacts(input, result, kept, groups, idx, dropped);
    if n > 0 {
      SourceIndexIsUnitIndex(input, result, kept, groups, idx, dropped, n - 1);
      GroupOfSetting(input, result, kept, groups, idx, dropped, n - 1);
      SourceIndexStep(input, groups, dropped, n, UnitIndex(input, result, idx),
                      GroupStart(kept, n - 1), GroupEnd(kept, |input|, n - 1));
    }
  }

  lemma {:induction false} SourceIndexStep(input: seq<nat>, groups: seq<seq<nat>>, dropped: seq<nat>, n: nat,
                                           u: seq<nat>, lo: nat, hi: nat)
    requires GroupsOf(input, groups) && 0 < n <= |groups| == |dropped| && lo <= hi <= |u|
    requires SourceIndex(input, groups, dropped, n - 1) == u[..lo]
    requires Delinearize(Sizes(input, groups[n - 1]), dropped[n - 1]) == u[lo..hi]
    ensures SourceIndex(input, groups, dropped, n) == u[..hi]
  {
    hide Delinearize, Sizes;
    PrefixStep(u, lo, hi);
  }

  lemma PrefixStep(s: seq<nat>, lo: nat, hi: nat)
    requires lo <= hi <= |s|
    ensures s[..lo] + s[lo..hi] == s[..hi]
  {
  }

  lemma {:induction false} LookupIsRight(src: Tensor, result: seq<nat>, dims: seq<nat>, groups: seq<seq<nat>>,
                                         idx: seq<nat>)
    requires Broadcastable(src.shape, result) && GroupsOf(src.shape, groups)
    requires IsReassociation(KeptDims(src.shape, result, |src.shape|), |src.shape|, groups)
    requires dims == BroadcastDims(src.shape, result, |src.shape|) && InBounds(idx, result)
    ensures BroadcastTo(Collapse(src, groups), result, dims).at(idx) == src.at(UnitIndex(src.shape, result, idx))
  {
    var kept := KeptDims(src.shape, result, |src.shape|);
    var u := UnitIndex(src.shape, result, idx);
    var dropped := Drop(idx, dims, |idx|);
    KeptOrdered(src.shape, result, |src.shape|);
    BroadcastDimsAre(src.shape, result, |src.shape|);
    DropIsKept(src.shape, result, dims, idx, |idx|);
    SourceIndexIsUnitIndex(src.shape, result, kept, groups, idx, dropped, |groups|);
    if groups == [] {
      assert u == seq(|src.shape|, _ => 0);
    } else {
      assert u[..|u|] == u;
    }
  }

  /** The collapsed tensor has the extents of the result in the kept dimensions. */
  lemma {:induction false} CollapsedShape(src: Tensor, result: seq<nat>, groups: seq<seq<nat>>, g: nat)
    requires Broadcastable(src.shape, result) && GroupsOf(src.shape, groups) && g < |groups|
    requires IsReassociation(KeptDims(src.shape, result, |src.shape|), |src.shape|, groups)
    ensures Collapse(src, groups).shape[g] == result[KeptDims(src.shape, result, |src.shape|)[g]]
  {
    hide KeptDims, Product, Sizes, Range, Selects;
    var kept := KeptDims(src.shape, result, |src.shape|);
    KeptOrdered(src.shape, result, |src.shape|);
    assert groups[g] == Range(GroupStart(kept, g), GroupEnd(kept, |src.shape|, g));
    GroupProduct(src.shape, result, kept, g);
  }

  lemma {:induction false} GroupProduct(input: seq<nat>, result: seq<nat>, kept: seq<nat>, g: nat)
    requires Broadcastable(input, result) && Selects(kept, input, result, |input|) && g < |kept|
    requires GroupStart(kept, g) <= kept[g] < GroupEnd(kept, |input|, g) <= |input|
    ensures Product(Sizes(input, Range(GroupStart(kept, g), GroupEnd(kept, |input|, g)))) == result[kept[g]]
  {
    var lo, hi := GroupStart(kept, g), GroupEnd(kept, |input|, g);
    var sizes := Sizes(input, Range(lo, hi));
    var p := kept[g] - lo;
    forall k | 0 <= k < hi - lo && k != p
      ensures sizes[k] == 1
    {
      OnlyBroadcastBetween(input, result, kept, g, lo + k);
    }
    ProductSingle(sizes, p);
  }

  /** The groups cover all dimensions, each once and in order. */
  lemma {:induction false} GroupsPartition(kept: seq<nat>, rank: nat, groups: seq<seq<nat>>, n: nat)
    requires IsReassociation(kept, rank, groups) && 0 < n <= |groups|
    ensures Flatten(groups[..n]) == Range(0, GroupEnd(kept, rank, n - 1))
    decreases n
  {
    hide Flatten, Range;
    SnocPrefix(groups, n);
    FlattenSnoc(groups[..n - 1], groups[n - 1]);
    var lo, hi := GroupStart(kept, n - 1), GroupEnd(kept, rank, n - 1);
    assert lo <= hi && groups[n - 1] == Range(lo, hi);
    if n > 1 {
      GroupsPartition(kept, rank, groups, n - 1);
      RangeConcat(lo, hi);
    } else {
      FlattenNothing();
      assert groups[..0] == [];
    }
  }

  lemma FlattenNothing()
    ensures Flatten([]) == []
  {
  }

  lemma SnocPrefix(groups: seq<seq<nat>>, n: nat)
    requires 0 < n <= |groups|
    ensures groups[..n] == groups[..n - 1] + [groups[n - 1]]
  {
  }

  lemma RangeConcat(lo: nat, hi: nat)
    requires lo <= hi
    ensures Range(0, lo) + Range(lo, hi) == Range(0, hi)
  {
  }

  function Flatten(groups: seq<seq<nat>>): seq<nat> {
    if groups == [] then [] else groups[0] + Flatten(groups[1..])
  }

  lemma {:induction false} FlattenSnoc(groups: seq<seq<nat>>, g: seq<nat>)
    ensures Flatten(groups + [g]) == Flatten(groups) + g
    decreases |groups|
  {
    if groups == [] {
      assert groups + [g] == [g];
    } else {
      FlattenSnoc(groups[1..], g);
      assert (groups + [g])[1..] == groups[1..] + [g];
    }
  }
}
