/** How kernels get their operands: as memrefs with row-major strides, packed into one list. */
module Memrefs {
  import opened Wrappers
  import opened Shapes

  datatype Metadata = Metadata(offset: nat, sizes: seq<nat>, strides: seq<nat>)

  lemma NoDims()
    ensures Product([]) == 1
  {
  }

  lemma ProductStep(shape: seq<nat>, d: nat)
    requires d < |shape|
    ensures Product(shape[d..]) == Product(shape[d + 1..]) * shape[d]
  {
    assert shape[d..][1..] == shape[d + 1..];
  }

  /** The loop over the dimensions, last to first. */
  method FillMetadata(shape: seq<nat>) returns (md: Metadata)
    ensures md.offset == 0 && md.sizes == shape && IsRowMajor(md.strides, shape)
  {
    hide Product;
    NoDims();
    assert shape[|shape|..] == [];
    var sizes := seq(|shape|, _ => 0);
    var strides := seq(|shape|, _ => 0);
    var multiplier := 1;
    var i := |shape|;
    while i > 0
      invariant 0 <= i <= |shape| == |sizes| == |strides|
      invariant multiplier == Product(shape[i..])
      invariant forall d | i <= d < |shape| :: sizes[d] == shape[d] && strides[d] == Product(shape[d + 1..])
    {
      var position := i - 1;
      var size := shape[position];
      sizes := sizes[position := size];
      strides := strides[position := multiplier];
      ProductStep(shape, position);
      multiplier := multiplier * size;
      i := i - 1;
    }
    assert sizes == shape;
    md := Metadata(0, sizes, strides);
  }

  /** The offset of an element, as code that uses the strides computes it. */
  function StridedOffset(strides: seq<nat>, idx: seq<nat>): nat
    requires |strides| == |idx|
  {
    if strides == [] then 0 else idx[0] * strides[0] + StridedOffset(strides[1..], idx[1..])
  }

  ghost predicate IsRowMajor(strides: seq<nat>, shape: seq<nat>) {
    |strides| == |shape| && forall d | 0 <= d < |shape| :: strides[d] == Product(shape[d + 1..])
  }

  lemma {:induction false} OffsetIsPosition(shape: seq<nat>, strides: seq<nat>, idx: seq<nat>)
    requires IsRowMajor(strides, shape) && |idx| == |shape|
    ensures StridedOffset(strides, idx) == Linearize(shape, idx)
    decreases |shape|
  {
    if shape != [] {
      forall d | 0 <= d < |shape| - 1
        ensures strides[1..][d] == Product(shape[1..][d + 1..])
      {
        assert shape[1..][d + 1..] == shape[d + 2..];
      }
      OffsetIsPosition(shape[1..], strides[1..], idx[1..]);
    }
  }

  /** The offsets of the in-bounds indices are exactly the numbers below the number of elements,
      and no two indices share an offset. */
  lemma {:induction false} OffsetsAreBijective(shape: seq<nat>, strides: seq<nat>)
    requires IsRowMajor(strides, shape)
    ensures forall idx | InBounds(idx, shape) :: StridedOffset(strides, idx) < Product(shape)
    ensures forall idx, jdx | InBounds(idx, shape) && InBounds(jdx, shape) ::
              StridedOffset(strides, idx) == StridedOffset(strides, jdx) ==> idx == jdx
    ensures forall c: nat | c < Product(shape) ::
              var idx := Delinearize(shape, c);
              InBounds(idx, shape) && StridedOffset(strides, idx) == c
  {
    forall idx | InBounds(idx, shape)
      ensures StridedOffset(strides, idx) < Product(shape)
      ensures Delinearize(shape, StridedOffset(strides, idx)) == idx
    {
      OffsetIsPosition(shape, strides, idx);
      LinearizeBound(shape, idx);
      DelinearizeLinearize(shape, idx);
    }
    forall c: nat | c < Product(shape)
      ensures var idx := Delinearize(shape, c); InBounds(idx, shape) && StridedOffset(strides, idx) == c
    {
      LinearizeDelinearize(shape, c);
      OffsetIsPosition(shape, strides, Delinearize(shape, c));
    }
  }

  // ----- Packed calls -----

  /** A memref as the kernel sees it. */
  datatype Memref = Memref(basePtr: int, data: int, md: Metadata)

  /** Where the results go: with one result, `out` is its buffer, otherwise the address of a table
      of buffers. `table` gives the entries of the table at an address. */
  function Buffers(out: int, table: (int, nat) -> int, numOutputs: nat): (r: seq<int>)
    ensures |r| == numOutputs
    ensures numOutputs == 1 ==> r[0] == out
    ensures numOutputs != 1 ==> forall k | 0 <= k < numOutputs :: r[k] == table(out, k)
  {
    if numOutputs == 1 then [out] else seq(numOutputs, k requires k >= 0 => table(out, k))
  }

  predicate WellFormed(md: Metadata) {
    |md.sizes| == |md.strides|
  }

  /** The metadata of all operands, those of the inputs first. */
  method PopulateMemrefMetaData(inputs: seq<seq<nat>>, results: seq<seq<nat>>) returns (mds: seq<Metadata>)
    ensures |mds| == |inputs + results|
    ensures forall k | 0 <= k < |mds| ::
              mds[k].offset == 0 && mds[k].sizes == (inputs + results)[k] && IsRowMajor(mds[k].strides, mds[k].sizes)
  {
    mds := [];
    for k := 0 to |inputs + results|
      invariant |mds| == k
      invariant forall n | 0 <= n < k ::
                  mds[n].offset == 0 && mds[n].sizes == (inputs + results)[n] && IsRowMajor(mds[n].strides, mds[n].sizes)
    {
      var md := FillMetadata((inputs + results)[k]);
      mds := mds + [md];
    }
  }

  function Descriptor(ptr: int, md: Metadata): seq<int> {
    [ptr, ptr, md.offset] + md.sizes + md.strides
  }

  function Descriptors(ptrs: seq<int>, mds: seq<Metadata>): seq<int>
    requires |ptrs| == |mds|
  {
    if ptrs == [] then []
    else Descriptors(ptrs[..|ptrs| - 1], mds[..|mds| - 1]) + Descriptor(ptrs[|ptrs| - 1], mds[|mds| - 1])
  }

  lemma NoDescriptors()
    ensures Descriptors([], []) == []
  {
  }

  lemma DescriptorsSnoc(ptrs: seq<int>, mds: seq<Metadata>, n: nat)
    requires |ptrs| == |mds| && n < |ptrs|
    ensures Descriptors(ptrs[..n + 1], mds[..n + 1]) == Descriptors(ptrs[..n], mds[..n]) + Descriptor(ptrs[n], mds[n])
  {
    assert ptrs[..n + 1][..n] == ptrs[..n] && mds[..n + 1][..n] == mds[..n];
  }

  /** The arguments of one operand, pushed one by one. */
  method PackArgs(args: seq<int>, ptr: int, md: Metadata) returns (args': seq<int>)
    ensures args' == args + Descriptor(ptr, md)
    ensures args' == args + [ptr, ptr, md.offset] + md.sizes + md.strides
  {
    args' := args + [ptr] + [ptr] + [md.offset];
    for d := 0 to |md.sizes|
      invariant args' == args + [ptr, ptr, md.offset] + md.sizes[..d]
    {
      args' := args' + [md.sizes[d]];
    }
    for d := 0 to |md.strides|
      invariant args' == args + [ptr, ptr, md.offset] + md.sizes + md.strides[..d]
    {
      args' := args' + [md.strides[d]];
    }
  }

  /** The number of arguments that the call reserves space for. */
  function FlatArgsCount(mds: seq<Metadata>): nat {
    if mds == [] then 0
    else FlatArgsCount(mds[..|mds| - 1]) + 3 + |mds[|mds| - 1].sizes| + |mds[|mds| - 1].strides|
  }

  lemma {:induction false} DescriptorsCount(ptrs: seq<int>, mds: seq<Metadata>)
    requires |ptrs| == |mds|
    ensures |Descriptors(ptrs, mds)| == FlatArgsCount(mds)
    decreases |ptrs|
  {
    if ptrs != [] {
      DescriptorsCount(ptrs[..|ptrs| - 1], mds[..|mds| - 1]);
    }
  }

  /** What a kernel with operands of the given ranks reads from its arguments, last operand first. */
  function Unpack(args: seq<int>, ranks: seq<nat>): Option<seq<Memref>>
    decreases |ranks|
  {
    if ranks == [] then if args == [] then Some([]) else None
    else
      var rank := ranks[|ranks| - 1];
      var from := |args| - (3 + 2 * rank);
      if from < 0 then None
      else
        var own := args[from..];
        var rest := Unpack(args[..from], ranks[..|ranks| - 1]);
        if rest.None? || own[2] < 0 || !NonNegative(own[3..]) then None
        else
          var md := Metadata(own[2], Naturals(own[3..3 + rank]), Naturals(own[3 + rank..]));
          Some(rest.value + [Memref(own[0], own[1], md)])
  }

  predicate NonNegative(xs: seq<int>) {
    forall k | 0 <= k < |xs| :: xs[k] >= 0
  }

  function Naturals(xs: seq<int>): seq<nat>
    requires NonNegative(xs)
  {
    xs
  }

  function Ranks(mds: seq<Metadata>): seq<nat> {
    seq(|mds|, k requires 0 <= k < |mds| => |mds[k].sizes|)
  }

  function MemrefsOf(ptrs: seq<int>, mds: seq<Metadata>): seq<Memref>
    requires |ptrs| == |mds|
  {
    seq(|ptrs|, k requires 0 <= k < |ptrs| => Memref(ptrs[k], ptrs[k], mds[k]))
  }

  lemma UnpackOne(before: seq<int>, ptr: int, md: Metadata)
    requires WellFormed(md)
    ensures var args, rank := before + Descriptor(ptr, md), |md.sizes|;
            var from := |args| - (3 + 2 * rank);
            && from == |before| && args[..from] == before && args[from..] == Descriptor(ptr, md)
            && var own := args[from..];
               && own[0] == ptr == own[1] && own[2] == md.offset
               && own[3..3 + rank] == md.sizes && own[3 + rank..] == md.strides && NonNegative(own[3..])
  {
    var own := Descriptor(ptr, md);
    assert own[3..] == md.sizes + md.strides;
  }

  /** Unpacking one more operand. */
  lemma {:induction false} UnpackSnoc(before: seq<int>, ranks: seq<nat>, seen: seq<Memref>, ptr: int, md: Metadata)
    requires WellFormed(md) && Unpack(before, ranks) == Some(seen)
    ensures Unpack(before + Descriptor(ptr, md), ranks + [|md.sizes|]) == Some(seen + [Memref(ptr, ptr, md)])
  {
    UnpackOne(before, ptr, md);
    hide Descriptor;
    var all := ranks + [|md.sizes|];
    assert all[..|all| - 1] == ranks && all[|all| - 1] == |md.sizes|;
  }

  /** The kernel gets back every operand that has been packed. */
  lemma {:induction false} UnpackDescriptors(ptrs: seq<int>, mds: seq<Metadata>)
    requires |ptrs| == |mds| && forall k | 0 <= k < |mds| :: WellFormed(mds[k])
    ensures Unpack(Descriptors(ptrs, mds), Ranks(mds)) == Some(MemrefsOf(ptrs, mds))
    decreases |ptrs|
  {
    hide Descriptor, Unpack;
    if ptrs == [] {
      NothingUnpacked();
    } else {
      var n := |ptrs| - 1;
      UnpackDescriptors(ptrs[..n], mds[..n]);
      UnpackSnoc(Descriptors(ptrs[..n], mds[..n]), Ranks(mds[..n]), MemrefsOf(ptrs[..n], mds[..n]), ptrs[n], mds[n]);
      assert Ranks(mds) == Ranks(mds[..n]) + [|mds[n].sizes|];
      assert MemrefsOf(ptrs, mds) == MemrefsOf(ptrs[..n], mds[..n]) + [Memref(ptrs[n], ptrs[n], mds[n])];
    }
  }

  lemma NothingUnpacked()
    ensures Unpack([], []) == Some([])
  {
  }

  /** The pointers of all operands. */
  ghost function Pointers(out: int, table: (int, nat) -> int, ins: seq<int>, numOutputs: nat): (r: seq<int>)
    ensures r == ins + Buffers(out, table, numOutputs) && |r| == |ins| + numOutputs
    ensures forall k | 0 <= k < |ins| :: r[k] == ins[k]
    ensures numOutputs == 1 ==> r[|ins|] == out
    ensures numOutputs != 1 ==> forall k | 0 <= k < numOutputs :: r[|ins| + k] == table(out, k)
  {
    ins + Buffers(out, table, numOutputs)
  }

  /** The packing of a call: inputs first, then the single result or all results of the table. */
  method Call(out: int, table: (int, nat) -> int, ins: seq<int>, numOutputs: nat, mds: seq<Metadata>)
    returns (args: seq<int>)
    requires |mds| == |ins| + numOutputs
    requires forall k | 0 <= k < |mds| :: WellFormed(mds[k])
    ensures |args| == FlatArgsCount(mds)
    ensures Unpack(args, Ranks(mds)) == Some(MemrefsOf(ins + Buffers(out, table, numOutputs), mds))
  {
    hide Descriptors, Descriptor, Unpack, FlatArgsCount, MemrefsOf, WellFormed, Buffers, Ranks, Pointers;
    ghost var ptrs := Pointers(out, table, ins, numOutputs);
    NoDescriptors();
    args := [];
    for i := 0 to |ins|
      invariant args == Descriptors(ptrs[..i], mds[..i])
    {
      DescriptorsSnoc(ptrs, mds, i);
      args := PackArgs(args, ins[i], mds[i]);
    }
    if numOutputs == 1 {
      DescriptorsSnoc(ptrs, mds, |ins|);
      args := PackArgs(args, out, mds[|ins|]);
    } else {
      for i := 0 to numOutputs
        invariant args == Descriptors(ptrs[..|ins| + i], mds[..|ins| + i])
      {
        DescriptorsSnoc(ptrs, mds, |ins| + i);
        args := PackArgs(args, table(out, i), mds[|ins| + i]);
      }
    }
    assert ptrs[..|ins| + numOutputs] == ptrs && mds[..|ins| + numOutputs] == mds;
    DescriptorsCount(ptrs, mds);
    UnpackDescriptors(ptrs, mds);
  }

  /** A kernel for the given shapes, called: it sees all inputs and then all results, each with
      its shape, with offset zero, and with strides that address every element exactly once. */
  method CallKernel(inputs: seq<seq<nat>>, results: seq<seq<nat>>, out: int, table: (int, nat) -> int, ins: seq<int>)
    returns (args: seq<int>)
    requires |ins| == |inputs|
    ensures var shapes, ptrs := inputs + results, ins + Buffers(out, table, |results|);
            && var seen := Unpack(args, seq(|shapes|, k requires 0 <= k < |shapes| => |shapes[k]|));
               && seen.Some? && |seen.value| == |shapes|
               && forall k | 0 <= k < |shapes| :: Addresses(seen.value[k], ptrs[k], shapes[k])
  {
    hide Unpack, Addresses;
    var mds := PopulateMemrefMetaData(inputs, results);
    args := Call(out, table, ins, |results|, mds);
    ghost var shapes, ptrs := inputs + results, ins + Buffers(out, table, |results|);
    assert Ranks(mds) == seq(|shapes|, k requires 0 <= k < |shapes| => |shapes[k]|);
    forall k | 0 <= k < |mds|
      ensures Addresses(MemrefsOf(ptrs, mds)[k], ptrs[k], shapes[k])
    {
      RowMajorAddresses(ptrs[k], mds[k], shapes[k]);
    }
  }

  lemma RowMajorAddresses(ptr: int, md: Metadata, shape: seq<nat>)
    requires md.offset == 0 && md.sizes == shape && IsRowMajor(md.strides, shape)
    ensures Addresses(Memref(ptr, ptr, md), ptr, shape)
  {
    OffsetsAreBijective(shape, md.strides);
  }

  /** The memref addresses the elements of a row-major buffer of the given shape, each once. */
  ghost predicate Addresses(m: Memref, ptr: int, shape: seq<nat>) {
    && m.basePtr == ptr == m.data && m.md.offset == 0 && m.md.sizes == shape && |m.md.strides| == |shape|
    && (forall idx | InBounds(idx, shape) :: StridedOffset(m.md.strides, idx) < Product(shape))
    && (forall idx, jdx | InBounds(idx, shape) && InBounds(jdx, shape) ::
          StridedOffset(m.md.strides, idx) == StridedOffset(m.md.strides, jdx) ==> idx == jdx)
    && (forall c: nat | c < Product(shape) ::
          var idx := Delinearize(shape, c); InBounds(idx, shape) && StridedOffset(m.md.strides, idx) == c)
  }
}
