/** The mathematical streams that iterator ops stand for. */
module Streams {
  import opened Values

  function Filtered(p: Value -> bool, s: seq<Value>): seq<Value> {
    if s == [] then [] else (if p(s[0]) then [s[0]] else []) + Filtered(p, s[1..])
  }

  function Mapped(f: Value -> Value, s: seq<Value>): seq<Value> {
    if s == [] then [] else [f(s[0])] + Mapped(f, s[1..])
  }

  function FoldLeft(g: (Value, Value) -> Value, acc: Value, s: seq<Value>): Value
    decreases s
  {
    if s == [] then acc else FoldLeft(g, g(acc, s[0]), s[1..])
  }

  function Reduced(g: (Value, Value) -> Value, s: seq<Value>): seq<Value> {
    if s == [] then [] else [FoldLeft(g, s[0], s[1..])]
  }

  function MinLength(ss: seq<seq<Value>>): (n: nat)
    requires ss != []
    ensures forall k | 0 <= k < |ss| :: n <= |ss[k]|
    ensures exists k | 0 <= k < |ss| :: n == |ss[k]|
  {
    if |ss| == 1 then |ss[0]|
    else
      var rest := MinLength(ss[1..]);
      assert forall k | 1 <= k < |ss| :: ss[k] == ss[1..][k - 1];
      if |ss[0]| <= rest then |ss[0]| else rest
  }

  function Row(ss: seq<seq<Value>>, k: nat): Value
    requires forall j | 0 <= j < |ss| :: k < |ss[j]|
  {
    Tuple(seq(|ss|, j requires 0 <= j < |ss| => ss[j][k]))
  }

  /** The streams in lock step, as long as the shortest of them. */
  function Zipped(ss: seq<seq<Value>>): seq<Value>
    requires ss != []
  {
    seq(MinLength(ss), k requires 0 <= k < MinLength(ss) => Row(ss, k))
  }

  function Tail(s: seq<Value>): seq<Value> {
    if s == [] then [] else s[1..]
  }

  predicate AllDefined(s: seq<Value>) {
    forall v | v in s :: Defined(v)
  }

  /** A zip whose inputs all have an element starts with the tuple of the heads. */
  lemma ZippedStep(ss: seq<seq<Value>>, tails: seq<seq<Value>>)
    requires ss != [] && |tails| == |ss|
    requires forall k | 0 <= k < |ss| :: ss[k] != [] && tails[k] == ss[k][1..]
    ensures Zipped(ss) == [Row(ss, 0)] + Zipped(tails)
  {
    var n, m := MinLength(ss), MinLength(tails);
    var a :| 0 <= a < |ss| && n == |ss[a]|;
    var b :| 0 <= b < |ss| && m == |tails[b]|;
    assert n == m + 1;
    forall k | 0 <= k < m
      ensures Row(ss, k + 1) == Row(tails, k)
    {
      assert Row(ss, k + 1).elements == Row(tails, k).elements;
    }
    assert Zipped(ss) == [Row(ss, 0)] + Zipped(tails);
  }

  lemma ZippedEnd(ss: seq<seq<Value>>, k: nat)
    requires k < |ss| && ss[k] == []
    ensures Zipped(ss) == []
  {
  }

  /** One element is taken from each input, if there is one: that is one step of the zip. */
  lemma ZippedTails(ss: seq<seq<Value>>, tails: seq<seq<Value>>, heads: seq<Value>)
    requires ss != [] && |tails| == |ss| == |heads|
    requires forall k | 0 <= k < |ss| :: tails[k] == Tail(ss[k])
    requires forall k | 0 <= k < |ss| :: ss[k] != [] ==> heads[k] == ss[k][0]
    ensures (Zipped(ss) != []) == forall k | 0 <= k < |ss| :: ss[k] != []
    ensures Zipped(ss) != [] ==> [Tuple(heads)] + Zipped(tails) == Zipped(ss)
    ensures Zipped(ss) == [] ==> Zipped(tails) == []
  {
    if forall k | 0 <= k < |ss| :: ss[k] != [] {
      ZippedStep(ss, tails);
      assert heads == Row(ss, 0).elements;
    } else {
      var k :| 0 <= k < |ss| && ss[k] == [];
      ZippedEnd(ss, k);
      ZippedEnd(tails, k);
    }
  }

  lemma ZippedDefined(ss: seq<seq<Value>>)
    requires ss != []
    requires forall k | 0 <= k < |ss| :: AllDefined(ss[k])
    ensures AllDefined(Zipped(ss))
  {
    forall k | 0 <= k < MinLength(ss)
      ensures Defined(Row(ss, k))
    {
      forall e | e in Row(ss, k).elements
        ensures Defined(e)
      {
        var j :| 0 <= j < |ss| && e == ss[j][k];
        assert e in ss[j];
      }
    }
  }

  lemma FilteredDefined(p: Value -> bool, s: seq<Value>)
    requires AllDefined(s)
    ensures AllDefined(Filtered(p, s))
  {
  }

  lemma MappedDefined(f: Value -> Value, s: seq<Value>)
    requires AllDefined(s)
    requires forall v | Defined(v) :: Defined(f(v))
    ensures AllDefined(Mapped(f, s))
  {
  }

  lemma {:induction false} FoldLeftDefined(g: (Value, Value) -> Value, acc: Value, s: seq<Value>)
    requires Defined(acc) && AllDefined(s)
    requires forall v, w | Defined(v) && Defined(w) :: Defined(g(v, w))
    ensures Defined(FoldLeft(g, acc, s))
    decreases s
  {
    if s != [] {
      FoldLeftDefined(g, g(acc, s[0]), s[1..]);
    }
  }
}
