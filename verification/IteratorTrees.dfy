/** Iterators whose use-def chains form a tree: every iterator has at most one use. */
module IteratorTrees {
  import opened IteratorOps
  import opened IteratorLowering
  import opened IteratorExecution

  /** No op is the input of two ops, or twice the input of one op. */
  ghost predicate SingleUse(ops: seq<Op>) {
    forall a, m, b, n |
      && 0 <= a < |ops| && 0 <= m < |Inputs(ops[a])|
      && 0 <= b < |ops| && 0 <= n < |Inputs(ops[b])|
      && Inputs(ops[a])[m] == Inputs(ops[b])[n] :: a == b && m == n
  }

  ghost predicate ReachesVia(ops: seq<Op>, i: nat, j: nat, n: nat)
    requires Valid(ops) && i < |ops| && n <= |Inputs(ops[i])|
  {
    exists k | 0 <= k < n :: Reaches(ops, Inputs(ops[i])[k], j)
  }

  /** There is a path exactly to the ops that are upstream. */
  lemma {:induction false} PathsReach(ops: seq<Op>, i: nat, j: nat)
    requires Valid(ops) && i < |ops|
    ensures Paths(ops, i, j) > 0 <==> Reaches(ops, i, j)
    decreases i, |Inputs(ops[i])| + 1
  {
    PathsViaReach(ops, i, j, |Inputs(ops[i])|);
  }

  lemma {:induction false} PathsViaReach(ops: seq<Op>, i: nat, j: nat, n: nat)
    requires Valid(ops) && i < |ops| && n <= |Inputs(ops[i])|
    ensures PathsVia(ops, i, j, n) > 0 <==> ReachesVia(ops, i, j, n)
    decreases i, n
  {
    if n > 0 {
      PathsViaReach(ops, i, j, n - 1);
      PathsReach(ops, Inputs(ops[i])[n - 1], j);
    }
  }

  /** Paths only lead to earlier ops. */
  lemma {:induction false} NoPathToLater(ops: seq<Op>, i: nat, j: nat)
    requires Valid(ops) && i < |ops| && i < j
    ensures Paths(ops, i, j) == 0
    decreases i, |Inputs(ops[i])| + 1
  {
    NoPathToLaterVia(ops, i, j, |Inputs(ops[i])|);
  }

  lemma {:induction false} NoPathToLaterVia(ops: seq<Op>, i: nat, j: nat, n: nat)
    requires Valid(ops) && i < |ops| && i <= j && n <= |Inputs(ops[i])|
    ensures PathsVia(ops, i, j, n) == 0
    decreases i, n
  {
    if n > 0 {
      NoPathToLaterVia(ops, i, j, n - 1);
      NoPathToLater(ops, Inputs(ops[i])[n - 1], j);
    }
  }

  /** The op at `j` is used nowhere but as input `m` of the op at `u`. */
  ghost predicate OnlyUse(ops: seq<Op>, j: nat, u: nat, m: nat) {
    && u < |ops| && m < |Inputs(ops[u])| && Inputs(ops[u])[m] == j
    && forall b, n | 0 <= b < |ops| && 0 <= n < |Inputs(ops[b])| && Inputs(ops[b])[n] == j ::
         b == u && n == m
  }

  /** All paths to an op with a single use lead through its user. */
  lemma {:induction false} PathsThroughUser(ops: seq<Op>, i: nat, j: nat, u: nat, m: nat)
    requires Valid(ops) && i < |ops| && i != j && OnlyUse(ops, j, u, m)
    ensures Paths(ops, i, j) == Paths(ops, i, u)
    decreases i, |Inputs(ops[i])| + 1
  {
    PathsThroughUserVia(ops, i, j, u, m, |Inputs(ops[i])|);
  }

  lemma {:induction false} PathsThroughUserVia(ops: seq<Op>, i: nat, j: nat, u: nat, m: nat, n: nat)
    requires Valid(ops) && i < |ops| && i != j && OnlyUse(ops, j, u, m) && n <= |Inputs(ops[i])|
    ensures PathsVia(ops, i, j, n) == PathsVia(ops, i, u, n) + if i == u && m < n then 1 else 0
    decreases i, n
  {
    if n > 0 {
      var c := Inputs(ops[i])[n - 1];
      PathsThroughUserVia(ops, i, j, u, m, n - 1);
      if c == j {
        assert i == u && n - 1 == m;
        NoPathToLaterVia(ops, j, j, |Inputs(ops[j])|);
        NoPathToLater(ops, j, u);
      } else {
        PathsThroughUser(ops, c, j, u, m);
      }
    }
  }

  lemma {:induction false} PathToSelf(ops: seq<Op>, i: nat)
    requires Valid(ops) && i < |ops|
    ensures Paths(ops, i, i) == 1
  {
    NoPathToLaterVia(ops, i, i, |Inputs(ops[i])|);
  }

  lemma {:induction false} NoPathWithoutUse(ops: seq<Op>, i: nat, j: nat)
    requires Valid(ops) && i < |ops| && i != j
    requires forall b, n | 0 <= b < |ops| && 0 <= n < |Inputs(ops[b])| :: Inputs(ops[b])[n] != j
    ensures Paths(ops, i, j) == 0
    decreases i, |Inputs(ops[i])| + 1
  {
    NoPathWithoutUseVia(ops, i, j, |Inputs(ops[i])|);
  }

  lemma {:induction false} NoPathWithoutUseVia(ops: seq<Op>, i: nat, j: nat, n: nat)
    requires Valid(ops) && i < |ops| && i != j && n <= |Inputs(ops[i])|
    requires forall b, n | 0 <= b < |ops| && 0 <= n < |Inputs(ops[b])| :: Inputs(ops[b])[n] != j
    ensures PathsVia(ops, i, j, n) == 0
    decreases i, n
  {
    if n > 0 {
      NoPathWithoutUseVia(ops, i, j, n - 1);
      NoPathWithoutUse(ops, Inputs(ops[i])[n - 1], j);
    }
  }

  /** In a tree, there is exactly one path to every upstream op; so a driver opens and closes
      every upstream op exactly once, and no other op. */
  lemma {:induction false} TreesHaveUniquePaths(ops: seq<Op>, i: nat, j: nat)
    requires Valid(ops) && SingleUse(ops) && i < |ops| && j < |ops|
    ensures Paths(ops, i, j) == if Reaches(ops, i, j) then 1 else 0
    decreases |ops| - j
  {
    PathsReach(ops, i, j);
    if i == j {
      PathToSelf(ops, i);
    } else if exists u, m :: 0 <= u < |ops| && 0 <= m < |Inputs(ops[u])| && Inputs(ops[u])[m] == j {
      var u, m :| 0 <= u < |ops| && 0 <= m < |Inputs(ops[u])| && Inputs(ops[u])[m] == j;
      PathsThroughUser(ops, i, j, u, m);
      assert ValidOp(ops[u], u) && j < u;
      TreesHaveUniquePaths(ops, i, u);
    } else {
      NoPathWithoutUse(ops, i, j);
    }
  }

  lemma CountOfSlices(log: Log, a: nat, b: nat, e: Event)
    requires a <= b <= |log|
    ensures multiset(log)[e] == multiset(log[..a])[e] + multiset(log[a..b])[e] + multiset(log[b..])[e]
  {
    assert log == log[..a] + log[a..b] + log[b..];
  }

  lemma NoStrayEvents(opens: Log, steps: Log, closes: Log, nexts: set<string>, clean: bool, o: string, c: string)
    requires OnlyOpens(opens) && OnlySteps(steps, nexts, clean) && OnlyCloses(closes)
    ensures multiset(steps)[Opened(o)] == 0 == multiset(closes)[Opened(o)]
    ensures multiset(opens)[Closed(c)] == 0 == multiset(steps)[Closed(c)]
  {
    assert Opened(o) !in steps && Opened(o) !in closes && Closed(c) !in opens && Closed(c) !in steps;
  }

  lemma StepsAreInTheMiddle(log: Log, a: nat, b: nat, q: nat)
    requires a <= b <= |log| && OnlyOpens(log[..a]) && OnlyCloses(log[b..])
    requires q < |log| && log[q].Advanced?
    ensures a <= q < b
  {
    assert forall p | 0 <= p < a :: log[..a][p] == log[p] && log[p].Opened?;
    assert forall p | 0 <= p < |log| - b :: log[b..][p] == log[b + p] && log[b + p].Closed?;
    assert forall p | b <= p < |log| :: log[p] == log[b..][p - b];
  }

  lemma FirstAndLast(log: Log, a: nat, b: nat, q: nat, e: Event, f: Event)
    requires a <= q < b <= |log| && multiset(log[..a])[e] > 0 && multiset(log[b..])[f] > 0
    ensures exists p | 0 <= p < q :: log[p] == e
    ensures exists r | q < r < |log| :: log[r] == f
  {
    assert e in log[..a] && f in log[b..];
    var p :| 0 <= p < a && log[..a][p] == e;
    var r :| 0 <= r < |log| - b && log[b..][r] == f;
    assert log[p] == e && log[b + r] == f;
  }

  /** In every run of a driver over a tree, each upstream iterator is opened exactly once and
      closed exactly once, and no other iterator is touched. */
  lemma {:induction false} OpenedAndClosedOnce(ops: seq<Op>, infos: seq<IteratorInfo>, i: nat, log: Log, j: nat)
    requires Valid(ops) && SingleUse(ops) && |infos| == |ops| && i < |ops| && j < |ops|
    requires Lifecycle(ops, infos, i, log)
    ensures multiset(log)[Opened(infos[j].openFunc)] == if Reaches(ops, i, j) then 1 else 0
    ensures multiset(log)[Closed(infos[j].closeFunc)] == if Reaches(ops, i, j) then 1 else 0
  {
    hide Reaches, Paths, DefinedSources, UpstreamNexts, SingleUse;
    var a, b := LifecycleParts(ops, infos, i, log);
    TreesHaveUniquePaths(ops, i, j);
    CountOfSlices(log, a, b, Opened(infos[j].openFunc));
    CountOfSlices(log, a, b, Closed(infos[j].closeFunc));
    NoStrayEvents(log[..a], log[a..b], log[b..], UpstreamNexts(ops, infos, i), DefinedSources(ops),
                  infos[j].openFunc, infos[j].closeFunc);
  }

  lemma LifecycleParts(ops: seq<Op>, infos: seq<IteratorInfo>, i: nat, log: Log) returns (a: nat, b: nat)
    requires Valid(ops) && |infos| == |ops| && i < |ops| && Lifecycle(ops, infos, i, log)
    ensures a <= b <= |log|
    ensures OnlyOpens(log[..a]) && OpensPaths(ops, infos, i, log[..a])
    ensures OnlySteps(log[a..b], UpstreamNexts(ops, infos, i), DefinedSources(ops))
    ensures OnlyCloses(log[b..]) && ClosesPaths(ops, infos, i, log[b..])
  {
    a, b :| 0 <= a <= b <= |log|
      && OnlyOpens(log[..a]) && OpensPaths(ops, infos, i, log[..a])
      && OnlySteps(log[a..b], UpstreamNexts(ops, infos, i), DefinedSources(ops))
      && OnlyCloses(log[b..]) && ClosesPaths(ops, infos, i, log[b..]);
  }

  /** Whatever `next` function is called in a run of a driver, its iterator has been opened
      before and is closed after. */
  lemma {:induction false} AdvancedWhileOpen(ops: seq<Op>, infos: seq<IteratorInfo>, i: nat, log: Log, q: nat)
    requires Valid(ops) && |infos| == |ops| && i < |ops| && Lifecycle(ops, infos, i, log)
    requires q < |log| && log[q].Advanced?
    ensures exists j | 0 <= j < |ops| ::
              && log[q].symbol == infos[j].nextFunc
              && (exists p | 0 <= p < q :: log[p] == Opened(infos[j].openFunc))
              && (exists r | q < r < |log| :: log[r] == Closed(infos[j].closeFunc))
  {
    hide Reaches, Paths, DefinedSources;
    var a, b := LifecycleParts(ops, infos, i, log);
    StepsAreInTheMiddle(log, a, b, q);
    assert log[a..b][q - a] in log[a..b];
    var j :| 0 <= j < |ops| && Reaches(ops, i, j) && infos[j].nextFunc == log[q].symbol;
    PathsReach(ops, i, j);
    FirstAndLast(log, a, b, q, Opened(infos[j].openFunc), Closed(infos[j].closeFunc));
  }
}
