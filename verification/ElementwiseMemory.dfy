/** The lowering of tensor stores and tensor atomics to loop nests over single elements. */
module ElementwiseMemory {
  import opened Wrappers
  import opened Cells
  import opened Shapes

  type Index = seq<nat>

  /** The operands of a store or an atomic op: addresses, values, and an optional mask. */
  datatype Operands = Operands(ptr: Index -> int, value: Index -> int, mask: Option<Index -> bool>)

  predicate Active(o: Operands, i: Index) {
    o.mask.None? || o.mask.value(i)
  }

  // ----- Row-major order -----

  /** The indices that start with `prefix` and continue with an index of `shape`, in the order in
      which a loop nest visits them. */
  function RowMajor(shape: seq<nat>, prefix: Index): seq<Index>
    decreases |shape|, 1, 0
  {
    if shape == [] then [prefix] else Rows(shape, prefix, shape[0])
  }

  function Rows(shape: seq<nat>, prefix: Index, n: nat): seq<Index>
    requires shape != []
    decreases |shape|, 0, n
  {
    if n == 0 then [] else Rows(shape, prefix, n - 1) + RowMajor(shape[1..], prefix + [n - 1])
  }

  predicate Extends(i: Index, prefix: Index, shape: seq<nat>) {
    && |i| == |prefix| + |shape| && i[..|prefix|] == prefix
    && forall d | 0 <= d < |shape| :: i[|prefix| + d] < shape[d]
  }

  lemma ExtendsStep(i: Index, prefix: Index, shape: seq<nat>)
    requires shape != []
    ensures Extends(i, prefix, shape)
       <==> |i| > |prefix| && i[|prefix|] < shape[0] && Extends(i, prefix + [i[|prefix|]], shape[1..])
  {
    if |i| == |prefix| + |shape| {
      assert i[..|prefix| + 1] == i[..|prefix|] + [i[|prefix|]];
      if Extends(i, prefix + [i[|prefix|]], shape[1..]) && i[|prefix|] < shape[0] {
        assert i[..|prefix|] == (prefix + [i[|prefix|]])[..|prefix|] == prefix;
        forall d | 0 <= d < |shape|
          ensures i[|prefix| + d] < shape[d]
        {
          if d > 0 {
            assert shape[1..][d - 1] == shape[d];
          }
        }
      }
    }
  }

  /** A loop nest visits exactly the indices of the tensor. */
  lemma {:induction false} RowMajorMembers(shape: seq<nat>, prefix: Index, i: Index)
    ensures i in RowMajor(shape, prefix) <==> Extends(i, prefix, shape)
    decreases |shape|, 1, 0
  {
    if shape == [] {
      if Extends(i, prefix, shape) {
        assert i[..|i|] == i;
      }
    } else {
      ExtendsStep(i, prefix, shape);
      RowsMembers(shape, prefix, shape[0], i);
    }
  }

  lemma {:induction false} RowsMembers(shape: seq<nat>, prefix: Index, n: nat, i: Index)
    requires shape != []
    ensures i in Rows(shape, prefix, n)
       <==> |i| > |prefix| && i[|prefix|] < n && Extends(i, prefix + [i[|prefix|]], shape[1..])
    decreases |shape|, 0, n
  {
    if n > 0 {
      RowsMembers(shape, prefix, n - 1, i);
      RowMajorMembers(shape[1..], prefix + [n - 1], i);
      if Extends(i, prefix + [n - 1], shape[1..]) {
        assert i[|prefix|] == i[..|prefix| + 1][|prefix|] == n - 1;
      }
    }
  }

  ghost predicate NoDuplicates(xs: seq<Index>) {
    forall j, k | 0 <= j < k < |xs| :: xs[j] != xs[k]
  }

  /** A loop nest visits no index twice. */
  lemma {:induction false} RowMajorDistinct(shape: seq<nat>, prefix: Index)
    ensures NoDuplicates(RowMajor(shape, prefix))
    decreases |shape|, 1, 0
  {
    if shape != [] {
      RowsDistinct(shape, prefix, shape[0]);
    }
  }

  lemma {:induction false} RowsDistinct(shape: seq<nat>, prefix: Index, n: nat)
    requires shape != []
    ensures NoDuplicates(Rows(shape, prefix, n))
    decreases |shape|, 0, n
  {
    if n > 0 {
      RowsDistinct(shape, prefix, n - 1);
      RowMajorDistinct(shape[1..], prefix + [n - 1]);
      var a: seq<Index>, b: seq<Index> := Rows(shape, prefix, n - 1), RowMajor(shape[1..], prefix + [n - 1]);
      forall j: int, k: int | 0 <= j < k < |a + b|
        ensures (a + b)[j] != (a + b)[k]
      {
        if j < |a| <= k {
          RowsMembers(shape, prefix, n - 1, a[j]);
          RowMajorMembers(shape[1..], prefix + [n - 1], b[k - |a|]);
          var i := b[k - |a|];
          assert i in b;
          assert i[|prefix|] == i[..|prefix| + 1][|prefix|] == n - 1;
        }
      }
    }
  }

  lemma {:induction false} RowMajorLength(shape: seq<nat>, prefix: Index)
    ensures |RowMajor(shape, prefix)| == Product(shape)
    decreases |shape|, 1, 0
  {
    if shape != [] {
      RowsLength(shape, prefix, shape[0]);
    }
  }

  lemma {:induction false} RowsLength(shape: seq<nat>, prefix: Index, n: nat)
    requires shape != []
    ensures |Rows(shape, prefix, n)| == n * Product(shape[1..])
    decreases |shape|, 0, n
  {
    hide Product;
    if n > 0 {
      RowsLength(shape, prefix, n - 1);
      RowMajorLength(shape[1..], prefix + [n - 1]);
      MultipleStep(n - 1, Product(shape[1..]));
    }
  }

  lemma MultipleStep(n: nat, p: nat)
    ensures (n + 1) * p == n * p + p
  {
  }

  /** Row `k` of a loop nest is in the place that the rows before it leave. */
  lemma {:induction false} RowsAt(shape: seq<nat>, prefix: Index, n: nat, k: nat, j: nat)
    requires shape != [] && k < n && j < Product(shape[1..])
    ensures k * Product(shape[1..]) + j < |Rows(shape, prefix, n)|
    ensures |RowMajor(shape[1..], prefix + [k])| == Product(shape[1..])
    ensures Rows(shape, prefix, n)[k * Product(shape[1..]) + j] == RowMajor(shape[1..], prefix + [k])[j]
    decreases n
  {
    hide Product, RowMajor;
    var p := Product(shape[1..]);
    RowsLength(shape, prefix, n - 1);
    RowMajorLength(shape[1..], prefix + [k]);
    if k < n - 1 {
      RowsAt(shape, prefix, n - 1, k, j);
    } else {
      assert Rows(shape, prefix, n) == Rows(shape, prefix, k) + RowMajor(shape[1..], prefix + [k]);
    }
  }

  /** The order of the loop nest is row-major: an index is at its row-major position. */
  lemma {:induction false} RowMajorAt(shape: seq<nat>, prefix: Index, idx: Index)
    requires InBounds(idx, shape)
    ensures Linearize(shape, idx) < |RowMajor(shape, prefix)|
    ensures RowMajor(shape, prefix)[Linearize(shape, idx)] == prefix + idx
    decreases |shape|
  {
    LinearizeBound(shape, idx);
    RowMajorLength(shape, prefix);
    if shape == [] {
      assert prefix + idx == prefix;
    } else {
      var rest, tail := shape[1..], idx[1..];
      LinearizeBound(rest, tail);
      RowMajorAt(rest, prefix + [idx[0]], tail);
      RowsAt(shape, prefix, shape[0], idx[0], Linearize(rest, tail));
      assert (prefix + [idx[0]]) + tail == prefix + idx;
    }
  }

  /** The elements of the order are the in-bounds indices, each at its row-major position. */
  lemma {:induction false} RowMajorPositions(shape: seq<nat>, k: nat)
    requires k < |RowMajor(shape, [])|
    ensures InBounds(RowMajor(shape, [])[k], shape) && Linearize(shape, RowMajor(shape, [])[k]) == k
  {
    hide RowMajor;
    var xs := RowMajor(shape, []);
    var i := xs[k];
    assert i in xs;
    RowMajorMembers(shape, [], i);
    assert forall d | 0 <= d < |shape| :: i[0 + d] < shape[d];
    RowMajorAt(shape, [], i);
    assert [] + i == i;
    RowMajorDistinct(shape, []);
  }

  // ----- Stores -----

  function StoreOne(mem: Memory, o: Operands, i: Index): Memory {
    if Active(o, i) then mem[o.ptr(i) := o.value(i)] else mem
  }

  function StoreAll(mem: Memory, o: Operands, xs: seq<Index>): Memory
    decreases xs
  {
    if xs == [] then mem else StoreAll(StoreOne(mem, o, xs[0]), o, xs[1..])
  }

  lemma {:induction false} StoreAppend(mem: Memory, o: Operands, a: seq<Index>, b: seq<Index>)
    ensures StoreAll(mem, o, a + b) == StoreAll(StoreAll(mem, o, a), o, b)
    decreases a
  {
    if a == [] {
      assert a + b == b;
    } else {
      assert (a + b)[1..] == a[1..] + b;
      StoreAppend(StoreOne(mem, o, a[0]), o, a[1..], b);
    }
  }

  predicate Writes(o: Operands, i: Index, a: int) {
    Active(o, i) && o.ptr(i) == a
  }

  /** The last index that writes to an address. */
  predicate IsLastWriter(o: Operands, xs: seq<Index>, a: int, k: nat) {
    k < |xs| && Writes(o, xs[k], a) && forall j | k < j < |xs| :: !Writes(o, xs[j], a)
  }

  /** An address holds the value of its last writer in row-major order. */
  lemma {:induction false} LastWriterWins(mem: Memory, o: Operands, xs: seq<Index>, a: int, k: nat)
    requires IsLastWriter(o, xs, a, k)
    ensures a in StoreAll(mem, o, xs) && StoreAll(mem, o, xs)[a] == o.value(xs[k])
    decreases xs
  {
    var mem' := StoreOne(mem, o, xs[0]);
    if k == 0 {
      NoWriter(mem', o, xs[1..], a);
    } else {
      LastWriterWins(mem', o, xs[1..], a, k - 1);
    }
  }

  /** An address without a writer is unchanged. */
  lemma {:induction false} NoWriter(mem: Memory, o: Operands, xs: seq<Index>, a: int)
    requires forall j | 0 <= j < |xs| :: !Writes(o, xs[j], a)
    ensures a in StoreAll(mem, o, xs) <==> a in mem
    ensures a in mem ==> StoreAll(mem, o, xs)[a] == mem[a]
    decreases xs
  {
    if xs != [] {
      assert !Writes(o, xs[0], a);
      NoWriter(StoreOne(mem, o, xs[0]), o, xs[1..], a);
    }
  }

  lemma {:induction false} FindLastWriter(o: Operands, xs: seq<Index>, a: int) returns (k: int)
    ensures k < 0 ==> forall j | 0 <= j < |xs| :: !Writes(o, xs[j], a)
    ensures k >= 0 ==> IsLastWriter(o, xs, a, k)
  {
    k := |xs| - 1;
    while k >= 0 && !Writes(o, xs[k], a)
      invariant -1 <= k < |xs|
      invariant forall j | k < j < |xs| :: !Writes(o, xs[j], a)
    {
      k := k - 1;
    }
  }

  /** Active indices have different addresses. */
  ghost predicate DistinctTargets(o: Operands, xs: seq<Index>) {
    forall i, j | i in xs && j in xs && Active(o, i) && Active(o, j) && o.ptr(i) == o.ptr(j) :: i == j
  }

  /** If no two active elements have the same address, the order of the stores does not matter. */
  lemma {:induction false} OrderDoesNotMatter(mem: Memory, o: Operands, xs: seq<Index>, js: seq<Index>)
    requires DistinctTargets(o, xs) && forall i :: i in xs <==> i in js
    ensures StoreAll(mem, o, xs) == StoreAll(mem, o, js)
  {
    var x, y := StoreAll(mem, o, xs), StoreAll(mem, o, js);
    forall a: int
      ensures a in x <==> a in y
      ensures a in x ==> x[a] == y[a]
    {
      SameCell(mem, o, xs, js, a);
    }
  }

  lemma {:induction false} SameCell(mem: Memory, o: Operands, xs: seq<Index>, js: seq<Index>, a: int)
    requires DistinctTargets(o, xs) && forall i :: i in xs <==> i in js
    ensures a in StoreAll(mem, o, xs) <==> a in StoreAll(mem, o, js)
    ensures a in StoreAll(mem, o, xs) ==> StoreAll(mem, o, xs)[a] == StoreAll(mem, o, js)[a]
  {
    hide StoreAll;
    var k := FindLastWriter(o, xs, a);
    var n := FindLastWriter(o, js, a);
    assert k >= 0 ==> xs[k] in xs && xs[k] in js;
    assert n >= 0 ==> js[n] in js && js[n] in xs;
    if k >= 0 && n >= 0 {
      LastWriterWins(mem, o, xs, a, k);
      LastWriterWins(mem, o, js, a, n);
    } else if k < 0 && n < 0 {
      NoWriter(mem, o, xs, a);
      NoWriter(mem, o, js, a);
    }
  }

  // ----- Atomics -----

  /** The memory, and the old value for each active index. */
  function AtomicAll(mem: Memory, o: Operands, f: (int, int) -> int, xs: seq<Index>): (r: (Memory, seq<Option<int>>))
    ensures |r.1| == |xs|
    decreases xs
  {
    if xs == [] then (mem, [])
    else
      var i := xs[0];
      var before := Read(mem, o.ptr(i));
      if Active(o, i) then
        var (mem', results) := AtomicAll(mem[o.ptr(i) := f(before, o.value(i))], o, f, xs[1..]);
        (mem', [Some(before)] + results)
      else
        var (mem', results) := AtomicAll(mem, o, f, xs[1..]);
        (mem', [None] + results)
  }

  lemma {:induction false} AtomicAppend(mem: Memory, o: Operands, f: (int, int) -> int, a: seq<Index>, b: seq<Index>)
    ensures var (m1, r1) := AtomicAll(mem, o, f, a);
            var (m2, r2) := AtomicAll(m1, o, f, b);
            AtomicAll(mem, o, f, a + b) == (m2, r1 + r2)
    decreases a
  {
    if a == [] {
      assert a + b == b;
      assert [] + AtomicAll(mem, o, f, b).1 == AtomicAll(mem, o, f, b).1;
    } else {
      assert (a + b)[1..] == a[1..] + b;
      var i := a[0];
      var mem' := if Active(o, i) then mem[o.ptr(i) := f(Read(mem, o.ptr(i)), o.value(i))] else mem;
      AtomicAppend(mem', o, f, a[1..], b);
      var first: Option<int> := if Active(o, i) then Some(Read(mem, o.ptr(i))) else None;
      var (m1, r1) := AtomicAll(mem', o, f, a[1..]);
      var (m2, r2) := AtomicAll(m1, o, f, b);
      assert [first] + (r1 + r2) == ([first] + r1) + r2;
    }
  }

  lemma AtomicSingle(mem: Memory, o: Operands, f: (int, int) -> int, i: Index)
    ensures var before := Read(mem, o.ptr(i));
            AtomicAll(mem, o, f, [i]) == if Active(o, i) then (mem[o.ptr(i) := f(before, o.value(i))], [Some(before)])
                                         else (mem, [None])
  {
    assert [i][1..] == [];
    var first: Option<int> := if Active(o, i) then Some(Read(mem, o.ptr(i))) else None;
    assert [first] + [] == [first];
  }

  /** The values for one address, combined in order. */
  function CombineAt(acc: int, o: Operands, f: (int, int) -> int, xs: seq<Index>, a: int): int
    decreases xs
  {
    if xs == [] then acc
    else CombineAt(if Writes(o, xs[0], a) then f(acc, o.value(xs[0])) else acc, o, f, xs[1..], a)
  }

  /** An address ends up with the combination of all active values for it. */
  lemma {:induction false} AtomicMemory(mem: Memory, o: Operands, f: (int, int) -> int, xs: seq<Index>, a: int)
    ensures Read(AtomicAll(mem, o, f, xs).0, a) == CombineAt(Read(mem, a), o, f, xs, a)
    decreases xs
  {
    if xs != [] {
      var i := xs[0];
      var mem' := if Active(o, i) then mem[o.ptr(i) := f(Read(mem, o.ptr(i)), o.value(i))] else mem;
      AtomicMemory(mem', o, f, xs[1..], a);
    }
  }

  /** An active index gets the combination of the earlier active values for its address. */
  lemma {:induction false} AtomicResults(mem: Memory, o: Operands, f: (int, int) -> int, xs: seq<Index>, k: nat)
    requires k < |xs|
    ensures AtomicAll(mem, o, f, xs).1[k]
         == if Active(o, xs[k]) then Some(CombineAt(Read(mem, o.ptr(xs[k])), o, f, xs[..k], o.ptr(xs[k]))) else None
    decreases xs
  {
    if k > 0 {
      var i := xs[0];
      var mem' := if Active(o, i) then mem[o.ptr(i) := f(Read(mem, o.ptr(i)), o.value(i))] else mem;
      AtomicResults(mem', o, f, xs[1..], k - 1);
      assert xs[..k][1..] == xs[1..][..k - 1];
    } else {
      assert xs[..0] == [];
    }
  }

  function SumAt(o: Operands, xs: seq<Index>, a: int): int {
    if xs == [] then 0 else (if Writes(o, xs[0], a) then o.value(xs[0]) else 0) + SumAt(o, xs[1..], a)
  }

  /** The sum for an address grows by the values with a true mask bit, or without a mask, that
      target it, and by nothing else. */
  lemma {:induction false} SumAtSnoc(o: Operands, xs: seq<Index>, i: Index, a: int)
    ensures SumAt(o, [], a) == 0
    ensures SumAt(o, xs + [i], a)
         == SumAt(o, xs, a) + if (o.mask == None || o.mask.value(i)) && o.ptr(i) == a then o.value(i) else 0
    decreases xs
  {
    var all := xs + [i];
    if xs == [] {
      assert all == [i] && all[1..] == [];
    } else {
      assert all[0] == xs[0] && all[1..] == xs[1..] + [i];
      SumAtSnoc(o, xs[1..], i, a);
    }
  }

  /** Likewise for any combiner: it is applied to the old value and the element's value. */
  lemma {:induction false} CombineAtSnoc(acc: int, o: Operands, f: (int, int) -> int, xs: seq<Index>, i: Index, a: int)
    ensures CombineAt(acc, o, f, [], a) == acc
    ensures var before := CombineAt(acc, o, f, xs, a);
            CombineAt(acc, o, f, xs + [i], a) ==
            if (o.mask == None || o.mask.value(i)) && o.ptr(i) == a then f(before, o.value(i)) else before
    decreases xs
  {
    var all := xs + [i];
    if xs == [] {
      assert all == [i] && all[1..] == [];
    } else {
      assert all[0] == xs[0] && all[1..] == xs[1..] + [i];
      CombineAtSnoc(if Writes(o, xs[0], a) then f(acc, o.value(xs[0])) else acc, o, f, xs[1..], i, a);
    }
  }

  lemma {:induction false} NothingToAdd(o: Operands, xs: seq<Index>, a: int)
    requires forall i | i in xs :: !Writes(o, i, a)
    ensures SumAt(o, xs, a) == 0
    decreases xs
  {
    if xs != [] {
      assert xs[0] in xs;
      NothingToAdd(o, xs[1..], a);
    }
  }

  /** Atomic additions add up. */
  lemma {:induction false} AdditionsAddUp(acc: int, o: Operands, xs: seq<Index>, a: int)
    ensures CombineAt(acc, o, (x, y) => x + y, xs, a) == acc + SumAt(o, xs, a)
    decreases xs
  {
    if xs != [] {
      AdditionsAddUp(if Writes(o, xs[0], a) then acc + o.value(xs[0]) else acc, o, xs[1..], a);
    }
  }

  // ----- The loop nests -----

  class Machine {
    var cells: Memory

    constructor (cells: Memory)
      ensures this.cells == cells
    {
      this.cells := cells;
    }

    /** The loops of a tensor store, from the dimension after `prefix` on. */
    method StoreNest(shape: seq<nat>, prefix: Index, o: Operands)
      modifies this
      ensures cells == StoreAll(old(cells), o, RowMajor(shape, prefix))
      decreases |shape|
    {
      if shape == [] {
        if o.mask.None? {
          cells := cells[o.ptr(prefix) := o.value(prefix)];
        } else if o.mask.value(prefix) {
          cells := cells[o.ptr(prefix) := o.value(prefix)];
        }
        assert [prefix][1..] == [];
      } else {
        for n := 0 to shape[0]
          invariant cells == StoreAll(old(cells), o, Rows(shape, prefix, n))
        {
          StoreAppend(old(cells), o, Rows(shape, prefix, n), RowMajor(shape[1..], prefix + [n]));
          StoreNest(shape[1..], prefix + [n], o);
        }
      }
    }

    /** The loops of a tensor atomic. Elements that are not active yield an undefined value. */
    method AtomicNest(shape: seq<nat>, prefix: Index, o: Operands, f: (int, int) -> int)
      returns (results: seq<Option<int>>)
      modifies this
      ensures (cells, results) == AtomicAll(old(cells), o, f, RowMajor(shape, prefix))
      decreases |shape|
    {
      if shape == [] {
        AtomicSingle(cells, o, f, prefix);
        if o.mask.None? || o.mask.value(prefix) {
          results := [Some(Read(cells, o.ptr(prefix)))];
          cells := cells[o.ptr(prefix) := f(Read(cells, o.ptr(prefix)), o.value(prefix))];
        } else {
          results := [None];
        }
      } else {
        results := [];
        for n := 0 to shape[0]
          invariant (cells, results) == AtomicAll(old(cells), o, f, Rows(shape, prefix, n))
        {
          AtomicAppend(old(cells), o, f, Rows(shape, prefix, n), RowMajor(shape[1..], prefix + [n]));
          var more := AtomicNest(shape[1..], prefix + [n], o, f);
          results := results + more;
        }
      }
    }
  }

  /** An index with a true mask bit, or any index of an unmasked store, writes to its address, and
      nothing else does. */
  lemma {:induction false} ActiveWriters(shape: seq<nat>, o: Operands, a: int, k: nat)
    requires k < |RowMajor(shape, [])|
    ensures var i := RowMajor(shape, [])[k];
            Writes(o, i, a) <==> (o.mask == None || o.mask.value(i)) && o.ptr(i) == a
  {
  }

  /** No in-bounds index with a true mask bit has the address. */
  lemma {:induction false} UntouchedAddress(shape: seq<nat>, o: Operands, a: int)
    requires forall i | InBounds(i, shape) && (o.mask == None || o.mask.value(i)) :: o.ptr(i) != a
    ensures forall i | i in RowMajor(shape, []) :: !Writes(o, i, a)
  {
    hide RowMajor, Writes, InBounds;
    forall i | i in RowMajor(shape, [])
      ensures !Writes(o, i, a)
    {
      var k :| 0 <= k < |RowMajor(shape, [])| && RowMajor(shape, [])[k] == i;
      RowMajorPositions(shape, k);
      ActiveWriters(shape, o, a, k);
    }
  }

  /** An index with a true mask bit that comes last in row-major order among those of its address. */
  lemma {:induction false} LastOfItsAddress(shape: seq<nat>, o: Operands, i: Index)
    requires InBounds(i, shape) && (o.mask == None || o.mask.value(i))
    requires forall j | InBounds(j, shape) && (o.mask == None || o.mask.value(j)) && o.ptr(j) == o.ptr(i) ::
               Linearize(shape, j) <= Linearize(shape, i)
    ensures Linearize(shape, i) < |RowMajor(shape, [])| && RowMajor(shape, [])[Linearize(shape, i)] == i
    ensures IsLastWriter(o, RowMajor(shape, []), o.ptr(i), Linearize(shape, i))
  {
    hide RowMajor, Writes, Linearize;
    var xs, n := RowMajor(shape, []), Linearize(shape, i);
    RowMajorAt(shape, [], i);
    assert [] + i == i;
    ActiveWriters(shape, o, o.ptr(i), n);
    forall k | n < k < |xs|
      ensures !Writes(o, xs[k], o.ptr(i))
    {
      RowMajorPositions(shape, k);
      ActiveWriters(shape, o, o.ptr(i), k);
    }
  }

  /** A masked or unmasked store of a whole tensor: every address has the value of its last active
      writer in row-major order, all other addresses are unchanged. */
  method StoreTensor(mem: Memory, shape: seq<nat>, o: Operands) returns (mem': Memory)
    ensures forall a: int, k: nat | IsLastWriter(o, RowMajor(shape, []), a, k) ::
              a in mem' && mem'[a] == o.value(RowMajor(shape, [])[k])
    ensures forall a | (forall i | i in RowMajor(shape, []) :: !Writes(o, i, a)) ::
              (a in mem' <==> a in mem) && (a in mem ==> mem'[a] == mem[a])
    ensures forall a | (forall i | InBounds(i, shape) && (o.mask == None || o.mask.value(i)) :: o.ptr(i) != a) ::
              (a in mem' <==> a in mem) && (a in mem ==> mem'[a] == mem[a])
    ensures forall i | InBounds(i, shape) && (o.mask == None || o.mask.value(i))
                       && (forall j | InBounds(j, shape) && (o.mask == None || o.mask.value(j)) && o.ptr(j) == o.ptr(i) ::
                             Linearize(shape, j) <= Linearize(shape, i)) ::
              o.ptr(i) in mem' && mem'[o.ptr(i)] == o.value(i)
  {
    hide StoreAll, RowMajor, Writes, Linearize;
    var machine := new Machine(mem);
    machine.StoreNest(shape, [], o);
    mem' := machine.cells;
    ghost var xs := RowMajor(shape, []);
    forall a: int, k: nat | IsLastWriter(o, xs, a, k)
      ensures a in mem' && mem'[a] == o.value(xs[k])
    {
      LastWriterWins(mem, o, xs, a, k);
    }
    forall a: int | forall i | i in xs :: !Writes(o, i, a)
      ensures (a in mem' <==> a in mem) && (a in mem ==> mem'[a] == mem[a])
    {
      NoWriter(mem, o, xs, a);
    }
    forall a: int | forall i | InBounds(i, shape) && (o.mask == None || o.mask.value(i)) :: o.ptr(i) != a
      ensures (a in mem' <==> a in mem) && (a in mem ==> mem'[a] == mem[a])
    {
      UntouchedAddress(shape, o, a);
    }
    forall i | InBounds(i, shape) && (o.mask == None || o.mask.value(i))
               && (forall j | InBounds(j, shape) && (o.mask == None || o.mask.value(j)) && o.ptr(j) == o.ptr(i) ::
                     Linearize(shape, j) <= Linearize(shape, i))
      ensures o.ptr(i) in mem' && mem'[o.ptr(i)] == o.value(i)
    {
      LastOfItsAddress(shape, o, i);
    }
  }

  lemma {:induction false} UntouchedSum(shape: seq<nat>, o: Operands, a: int)
    requires forall i | InBounds(i, shape) && (o.mask == None || o.mask.value(i)) :: o.ptr(i) != a
    ensures SumAt(o, RowMajor(shape, []), a) == 0
  {
    UntouchedAddress(shape, o, a);
    NothingToAdd(o, RowMajor(shape, []), a);
  }

  /** The result of an element that has a true mask bit, or no mask, is the value of its cell before
      its own addition; the other elements have no result. */
  ghost predicate IsResult(mem: Memory, shape: seq<nat>, o: Operands, results: seq<Option<int>>, i: Index)
    requires InBounds(i, shape)
  {
    var k := Linearize(shape, i);
    && k < |results| == |RowMajor(shape, [])|
    && (o.mask == None || o.mask.value(i) ==>
          results[k] == Some(Read(mem, o.ptr(i)) + SumAt(o, RowMajor(shape, [])[..k], o.ptr(i))))
    && (o.mask.Some? && !o.mask.value(i) ==> results[k] == None)
  }

  lemma {:induction false} ResultIsResult(mem: Memory, shape: seq<nat>, o: Operands, results: seq<Option<int>>, i: Index)
    requires InBounds(i, shape) && |results| == |RowMajor(shape, [])|
    requires forall k | 0 <= k < |results| ::
               var x := RowMajor(shape, [])[k];
               results[k] == if Active(o, x) then Some(Read(mem, o.ptr(x)) + SumAt(o, RowMajor(shape, [])[..k], o.ptr(x)))
                             else None
    ensures IsResult(mem, shape, o, results, i)
  {
    hide RowMajor, SumAt, Linearize;
    RowMajorAt(shape, [], i);
    assert [] + i == i;
  }

  /** A tensor of atomic additions: every address grows by the sum of its active values, and every
      active element gets the value before its own addition. */
  method AtomicAddTensor(mem: Memory, shape: seq<nat>, o: Operands)
    returns (mem': Memory, results: seq<Option<int>>)
    ensures forall a :: Read(mem', a) == Read(mem, a) + SumAt(o, RowMajor(shape, []), a)
    ensures forall a | (forall i | InBounds(i, shape) && (o.mask == None || o.mask.value(i)) :: o.ptr(i) != a) ::
              Read(mem', a) == Read(mem, a)
    ensures var xs := RowMajor(shape, []);
            |results| == |xs| && forall k | 0 <= k < |xs| ::
              results[k] == if Active(o, xs[k])
                            then Some(Read(mem, o.ptr(xs[k])) + SumAt(o, xs[..k], o.ptr(xs[k])))
                            else None
    ensures forall i | InBounds(i, shape) :: IsResult(mem, shape, o, results, i)
  {
    hide AtomicAll, RowMajor, CombineAt, SumAt, Linearize, IsResult;
    var machine := new Machine(mem);
    results := machine.AtomicNest(shape, [], o, (x, y) => x + y);
    mem' := machine.cells;
    ghost var xs := RowMajor(shape, []);
    forall a: int
      ensures Read(mem', a) == Read(mem, a) + SumAt(o, xs, a)
    {
      AtomicMemory(mem, o, (x, y) => x + y, xs, a);
      AdditionsAddUp(Read(mem, a), o, xs, a);
    }
    forall a: int | forall i | InBounds(i, shape) && (o.mask == None || o.mask.value(i)) :: o.ptr(i) != a
      ensures SumAt(o, xs, a) == 0
    {
      UntouchedSum(shape, o, a);
    }
    forall k | 0 <= k < |xs|
      ensures results[k] == if Active(o, xs[k])
                            then Some(Read(mem, o.ptr(xs[k])) + SumAt(o, xs[..k], o.ptr(xs[k])))
                            else None
    {
      AtomicResults(mem, o, (x, y) => x + y, xs, k);
      AdditionsAddUp(Read(mem, o.ptr(xs[k])), o, xs[..k], o.ptr(xs[k]));
    }
    forall i | InBounds(i, shape)
      ensures IsResult(mem, shape, o, results, i)
    {
      ResultIsResult(mem, shape, o, results, i);
    }
  }
}
