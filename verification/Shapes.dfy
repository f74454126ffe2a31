/** Shapes of tensors, and row-major positions in them. */
module Shapes {

  function Product(sizes: seq<nat>): nat {
    if sizes == [] then 1 else sizes[0] * Product(sizes[1..])
  }

  /** The indices of the collapsed dimensions that make up position `c`, in row-major order. */
  function Delinearize(sizes: seq<nat>, c: nat): seq<nat> {
    if sizes == [] then []
    else
      var stride := Product(sizes[1..]);
      if stride == 0 then seq(|sizes|, _ => 0)
      else [c / stride] + Delinearize(sizes[1..], c % stride)
  }

  predicate InBounds(idx: seq<nat>, shape: seq<nat>) {
    |idx| == |shape| && forall d | 0 <= d < |idx| :: idx[d] < shape[d]
  }

  /** The row-major position of an index. */
  function Linearize(shape: seq<nat>, idx: seq<nat>): nat
    requires |shape| == |idx|
  {
    if shape == [] then 0 else idx[0] * Product(shape[1..]) + Linearize(shape[1..], idx[1..])
  }

  /** A multiple of `n` that is closer to zero than `n` is zero. */
  lemma SmallMultiple(e: int, n: int)
    requires n > 0 && -n < e * n < n
    ensures e == 0
  {
    assert e >= 1 ==> e * n >= n;
    assert e <= -1 ==> e * n <= -n;
  }

  lemma DivMod(q: int, r: int, n: int)
    requires 0 <= r < n
    ensures (q * n + r) / n == q && (q * n + r) % n == r
  {
    var x := q * n + r;
    assert x == (x / n) * n + x % n;
    assert (x / n - q) * n == r - x % n;
    SmallMultiple(x / n - q, n);
  }

  /** Positions of in-bounds indices are smaller than the number of elements. */
  lemma {:induction false} LinearizeBound(shape: seq<nat>, idx: seq<nat>)
    requires InBounds(idx, shape)
    ensures Linearize(shape, idx) < Product(shape)
    decreases |shape|
  {
    if shape != [] {
      LinearizeBound(shape[1..], idx[1..]);
      RowBound(idx[0], shape[0], Linearize(shape[1..], idx[1..]), Product(shape[1..]));
    }
  }

  /** Multiplying by a fixed size keeps the order. */
  lemma {:induction false} MultiplesOrdered(i: nat, n: nat, p: nat)
    requires i <= n
    ensures i * p <= n * p
    decreases n - i
  {
    if i < n {
      MultiplesOrdered(i + 1, n, p);
      assert (i + 1) * p == i * p + p;
    }
  }

  lemma RowBound(i: nat, n: nat, r: nat, p: nat)
    requires i < n && r < p
    ensures i * p + r < n * p
  {
    MultiplesOrdered(i + 1, n, p);
    assert (i + 1) * p == i * p + p;
  }

  /** From an index to its position and back. */
  lemma {:induction false} DelinearizeLinearize(shape: seq<nat>, idx: seq<nat>)
    requires InBounds(idx, shape)
    ensures Delinearize(shape, Linearize(shape, idx)) == idx
    decreases |shape|
  {
    if shape != [] {
      LinearizeBound(shape[1..], idx[1..]);
      DelinearizeLinearize(shape[1..], idx[1..]);
      DivMod(idx[0], Linearize(shape[1..], idx[1..]), Product(shape[1..]));
    }
  }

  /** From a position to its index and back. */
  lemma {:induction false} LinearizeDelinearize(shape: seq<nat>, c: nat)
    requires c < Product(shape)
    ensures InBounds(Delinearize(shape, c), shape)
    ensures Linearize(shape, Delinearize(shape, c)) == c
    decreases |shape|
  {
    if shape != [] {
      var p := Product(shape[1..]);
      PositiveFactor(shape[0], p);
      PositionOfRow(c, shape[0], p);
      LinearizeDelinearize(shape[1..], c % p);
      var idx, rest := Delinearize(shape, c), Delinearize(shape[1..], c % p);
      assert idx == [c / p] + rest;
      assert idx[1..] == rest;
    }
  }

  lemma PositiveFactor(n: nat, p: nat)
    requires n * p > 0
    ensures p > 0
  {
  }

  lemma PositionOfRow(c: nat, n: nat, p: nat)
    requires p > 0 && c < n * p
    ensures 0 <= c / p < n && 0 <= c % p < p && c == (c / p) * p + c % p
  {
    var q := c / p;
    assert c == q * p + c % p;
    if q >= n {
      MultiplesOrdered(n, q, p);
      assert false;
    }
  }

  // ----- Row-major order -----

  /** The first dimension in which the indices differ decides. */
  predicate ComesBefore(i: seq<nat>, j: seq<nat>)
    requires |i| == |j|
  {
    i != [] && (i[0] < j[0] || (i[0] == j[0] && ComesBefore(i[1..], j[1..])))
  }

  lemma {:induction false} EarlierIsSmaller(shape: seq<nat>, i: seq<nat>, j: seq<nat>)
    requires InBounds(i, shape) && InBounds(j, shape) && ComesBefore(i, j)
    ensures Linearize(shape, i) < Linearize(shape, j)
    decreases |shape|
  {
    hide Product;
    var rest, p := shape[1..], Product(shape[1..]);
    if i[0] < j[0] {
      LinearizeBound(rest, i[1..]);
      RowBound(i[0], j[0], Linearize(rest, i[1..]), p);
    } else {
      EarlierIsSmaller(rest, i[1..], j[1..]);
    }
  }

  lemma {:induction false} OneComesBefore(i: seq<nat>, j: seq<nat>)
    requires |i| == |j|
    ensures i == j || ComesBefore(i, j) || ComesBefore(j, i)
    decreases |i|
  {
    if i != [] {
      OneComesBefore(i[1..], j[1..]);
      assert i == [i[0]] + i[1..] && j == [j[0]] + j[1..];
    }
  }

  /** Positions are in row-major order: the last dimension varies fastest. */
  lemma {:induction false} PositionsAreRowMajor(shape: seq<nat>, i: seq<nat>, j: seq<nat>)
    requires InBounds(i, shape) && InBounds(j, shape)
    ensures Linearize(shape, i) < Linearize(shape, j) <==> ComesBefore(i, j)
  {
    if ComesBefore(i, j) {
      EarlierIsSmaller(shape, i, j);
    }
    OneComesBefore(i, j);
    if ComesBefore(j, i) {
      EarlierIsSmaller(shape, j, i);
    }
  }
}
