/** Facts about sequences that several modules use. */
module Sequences {

  lemma ConcatAssociates<T>(a: seq<T>, b: seq<T>, c: seq<T>)
    ensures a + (b + c) == (a + b) + c
  {
  }

  /** The numbers from `start` on, in steps, that are below `stop`. */
  function Steps(start: int, stop: int, step: int): seq<int>
    requires step > 0
    decreases stop - start
  {
    if start < stop then [start] + Steps(start + step, stop, step) else []
  }

  /** The numbers are multiples of the step away from the start, below `stop`, and no further one is. */
  lemma {:induction false} StepsAt(start: int, stop: int, step: int, k: nat)
    requires step > 0
    ensures k < |Steps(start, stop, step)| <==> start + k * step < stop
    ensures k < |Steps(start, stop, step)| ==> Steps(start, stop, step)[k] == start + k * step
    decreases stop - start
  {
    if start < stop {
      if k > 0 {
        StepsAt(start + step, stop, step, k - 1);
        assert start + step + (k - 1) * step == start + k * step;
      }
    } else {
      NonNegativeProduct(k, step);
    }
  }

  lemma NonNegativeProduct(k: nat, n: nat)
    ensures k * n >= 0
  {
  }

  /** The numbers from `lo` to `hi`, without `hi`. */
  function Range(lo: nat, hi: nat): (r: seq<nat>)
    requires lo <= hi
    ensures |r| == hi - lo && forall k | 0 <= k < hi - lo :: r[k] == lo + k
  {
    seq(hi - lo, k requires 0 <= k < hi - lo => lo + k)
  }

  ghost predicate Increasing(xs: seq<int>) {
    forall a, b | 0 <= a < b < |xs| :: xs[a] < xs[b]
  }

  // ----- Selection -----

  /** The increasing positions of exactly the elements that satisfy `p`. */
  ghost predicate Picks<T>(at: seq<nat>, p: T -> bool, s: seq<T>) {
    && (forall k | 0 <= k < |at| :: at[k] < |s|)
    && (forall j, k | 0 <= j < k < |at| :: at[j] < at[k])
    && (forall j | 0 <= j < |s| :: p(s[j]) <==> j in at)
  }

  ghost predicate ReadAt<T>(at: seq<nat>, s: seq<T>, r: seq<T>) {
    |r| == |at| && forall k | 0 <= k < |r| :: at[k] < |s| && r[k] == s[at[k]]
  }

  /** `r` has exactly the elements of `s` that satisfy `p`, in order. */
  ghost predicate IsSelection<T>(p: T -> bool, s: seq<T>, r: seq<T>) {
    exists at: seq<nat> :: Picks(at, p, s) && ReadAt(at, s, r)
  }

  function Shifted(at: seq<nat>): (r: seq<nat>)
    ensures |r| == |at| && forall k | 0 <= k < |at| :: r[k] == at[k] + 1
  {
    seq(|at|, k requires 0 <= k < |at| => at[k] + 1)
  }

  lemma NothingSelected<T>(p: T -> bool)
    ensures IsSelection(p, [], [])
  {
    var empty: seq<T> := [];
    assert Picks([], p, empty) && ReadAt([], empty, empty);
  }

  lemma {:induction false} PicksShifted<T>(at: seq<nat>, p: T -> bool, s: seq<T>)
    requires s != [] && Picks(at, p, s[1..])
    ensures Picks((if p(s[0]) then [0] else []) + Shifted(at), p, s)
  {
    var all := (if p(s[0]) then [0] else []) + Shifted(at);
    forall j | 0 <= j < |s|
      ensures p(s[j]) <==> j in all
    {
      if j > 0 {
        assert s[j] == s[1..][j - 1];
        assert j in Shifted(at) <==> j - 1 in at by {
          if j - 1 in at {
            var k :| 0 <= k < |at| && at[k] == j - 1;
            assert Shifted(at)[k] == j;
          }
        }
      }
    }
  }

  lemma {:induction false} ReadShifted<T>(at: seq<nat>, s: seq<T>, r: seq<T>, first: bool)
    requires s != [] && ReadAt(at, s[1..], r)
    ensures ReadAt((if first then [0] else []) + Shifted(at), s, (if first then [s[0]] else []) + r)
  {
    var n := if first then 1 else 0;
    var all, read := (if first then [0] else []) + Shifted(at), (if first then [s[0]] else []) + r;
    forall k | 0 <= k < |read|
      ensures all[k] < |s| && read[k] == s[all[k]]
    {
      if k >= n {
        assert all[k] == at[k - n] + 1 && read[k] == r[k - n] && s[1..][at[k - n]] == s[at[k - n] + 1];
      }
    }
  }

  lemma SelectionIntro<T>(at: seq<nat>, p: T -> bool, s: seq<T>, r: seq<T>)
    requires Picks(at, p, s) && ReadAt(at, s, r)
    ensures IsSelection(p, s, r)
  {
  }

  /** One more element in front. */
  lemma {:induction false} SelectionCons<T>(p: T -> bool, s: seq<T>, r: seq<T>)
    requires s != [] && IsSelection(p, s[1..], r)
    ensures IsSelection(p, s, (if p(s[0]) then [s[0]] else []) + r)
  {
    hide Picks, ReadAt;
    var at: seq<nat> :| Picks(at, p, s[1..]) && ReadAt(at, s[1..], r);
    PicksShifted(at, p, s);
    ReadShifted(at, s, r, p(s[0]));
    SelectionIntro((if p(s[0]) then [0] else []) + Shifted(at), p, s, (if p(s[0]) then [s[0]] else []) + r);
  }
}
