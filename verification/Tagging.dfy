/** Tags that ops get from their enclosing tag regions, and the selection of ops by tags. */
module Tagging {
  import opened Sequences
  import opened TagRegions

  // ----- Ops and their enclosing regions -----

  /** The ids of the ops in an op, including the op itself. */
  function Ids(op: Op): set<nat>
    decreases op
  {
    match op
    case Prim(id, _, _, _) => {id}
    case Empty(id, _) => {id}
    case If(id, _, thenBlock, elseBlock, _) => {id} + OpsIds(thenBlock.ops) + OpsIds(elseBlock.ops)
    case TagRegion(id, _, body, _) => {id} + OpsIds(body.ops)
  }

  function OpsIds(ops: seq<Op>): set<nat>
    decreases ops
  {
    if ops == [] then {} else Ids(ops[0]) + OpsIds(ops[1..])
  }

  /** The ids of those ops that get tags: all but `tensor.empty`. */
  function Taggable(op: Op): set<nat>
    decreases op
  {
    match op
    case Prim(id, _, _, _) => {id}
    case Empty(_, _) => {}
    case If(id, _, thenBlock, elseBlock, _) => {id} + OpsTaggable(thenBlock.ops) + OpsTaggable(elseBlock.ops)
    case TagRegion(id, _, body, _) => {id} + OpsTaggable(body.ops)
  }

  function OpsTaggable(ops: seq<Op>): set<nat>
    decreases ops
  {
    if ops == [] then {} else Taggable(ops[0]) + OpsTaggable(ops[1..])
  }

  predicate DistinctIds(op: Op)
    decreases op
  {
    match op
    case If(id, _, thenBlock, elseBlock, _) =>
      && OpsDistinctIds(thenBlock.ops) && OpsDistinctIds(elseBlock.ops)
      && OpsIds(thenBlock.ops) !! OpsIds(elseBlock.ops)
      && id !in OpsIds(thenBlock.ops) && id !in OpsIds(elseBlock.ops)
    case TagRegion(id, _, body, _) => OpsDistinctIds(body.ops) && id !in OpsIds(body.ops)
    case _ => true
  }

  predicate OpsDistinctIds(ops: seq<Op>)
    decreases ops
  {
    ops != [] ==> DistinctIds(ops[0]) && OpsDistinctIds(ops[1..]) && Ids(ops[0]) !! OpsIds(ops[1..])
  }

  /** The names of the tag regions around the op with the given id, innermost first. A tag region
      counts as being in itself. */
  function Path(op: Op, id: nat): seq<string>
    decreases op
  {
    match op
    case If(_, _, thenBlock, elseBlock, _) => OpsPath(thenBlock.ops, id) + OpsPath(elseBlock.ops, id)
    case TagRegion(_, name, body, _) => if id in Ids(op) then OpsPath(body.ops, id) + [name] else []
    case _ => []
  }

  function OpsPath(ops: seq<Op>, id: nat): seq<string>
    decreases ops
  {
    if ops == [] then [] else Path(ops[0], id) + OpsPath(ops[1..], id)
  }

  lemma {:induction false} TaggableAreIds(op: Op)
    ensures Taggable(op) <= Ids(op)
    decreases op
  {
    match op
    case If(_, _, thenBlock, elseBlock, _) =>
      OpsTaggableAreIds(thenBlock.ops);
      OpsTaggableAreIds(elseBlock.ops);
    case TagRegion(_, _, body, _) =>
      OpsTaggableAreIds(body.ops);
    case _ =>
  }

  lemma {:induction false} OpsTaggableAreIds(ops: seq<Op>)
    ensures OpsTaggable(ops) <= OpsIds(ops)
    decreases ops
  {
    if ops != [] {
      TaggableAreIds(ops[0]);
      OpsTaggableAreIds(ops[1..]);
    }
  }

  lemma {:induction false} NoPathOutside(op: Op, id: nat)
    requires id !in Ids(op)
    ensures Path(op, id) == []
    decreases op
  {
    match op
    case If(_, _, thenBlock, elseBlock, _) =>
      NoOpsPathOutside(thenBlock.ops, id);
      NoOpsPathOutside(elseBlock.ops, id);
    case _ =>
  }

  lemma {:induction false} NoOpsPathOutside(ops: seq<Op>, id: nat)
    requires id !in OpsIds(ops)
    ensures OpsPath(ops, id) == []
    decreases ops
  {
    if ops != [] {
      NoPathOutside(ops[0], id);
      NoOpsPathOutside(ops[1..], id);
    }
  }

  // ----- Containment -----

  /** The op `x` is in `op`, and the given regions of `op` are around it, innermost first; a tag
      region is around itself. */
  ghost predicate Within(op: Op, x: Op, names: seq<string>)
    decreases op
  {
    || (x == op && names == if op.TagRegion? then [op.name] else [])
    || match op
       case If(_, _, thenBlock, elseBlock, _) => OpsWithin(thenBlock.ops, x, names) || OpsWithin(elseBlock.ops, x, names)
       case TagRegion(_, name, body, _) =>
         names != [] && names[|names| - 1] == name && OpsWithin(body.ops, x, names[..|names| - 1])
       case _ => false
  }

  ghost predicate OpsWithin(ops: seq<Op>, x: Op, names: seq<string>)
    decreases ops
  {
    ops != [] && (Within(ops[0], x, names) || OpsWithin(ops[1..], x, names))
  }

  /** An op is tagged exactly if it is not an empty tensor, and its path has the regions around it. */
  lemma {:induction false} WithinFacts(op: Op, x: Op, names: seq<string>)
    requires DistinctIds(op) && Within(op, x, names)
    ensures x.id in Ids(op) && (x.id in Taggable(op) <==> !x.Empty?) && Path(op, x.id) == names
    decreases op
  {
    match op
    case If(id, _, thenBlock, elseBlock, _) =>
      var a, b := thenBlock.ops, elseBlock.ops;
      OpsTaggableAreIds(a);
      OpsTaggableAreIds(b);
      if x == op && names == [] {
        NoOpsPathOutside(a, id);
        NoOpsPathOutside(b, id);
      } else if OpsWithin(a, x, names) {
        OpsWithinFacts(a, x, names);
        NoOpsPathOutside(b, x.id);
      } else {
        OpsWithinFacts(b, x, names);
        NoOpsPathOutside(a, x.id);
      }
    case TagRegion(id, name, body, _) =>
      OpsTaggableAreIds(body.ops);
      if x == op && names == [name] {
        NoOpsPathOutside(body.ops, id);
      } else {
        OpsWithinFacts(body.ops, x, names[..|names| - 1]);
      }
    case _ =>
  }

  lemma {:induction false} OpsWithinFacts(ops: seq<Op>, x: Op, names: seq<string>)
    requires OpsDistinctIds(ops) && OpsWithin(ops, x, names)
    ensures x.id in OpsIds(ops) && (x.id in OpsTaggable(ops) <==> !x.Empty?) && OpsPath(ops, x.id) == names
    decreases ops
  {
    TaggableAreIds(ops[0]);
    OpsTaggableAreIds(ops[1..]);
    if Within(ops[0], x, names) {
      WithinFacts(ops[0], x, names);
      NoOpsPathOutside(ops[1..], x.id);
    } else {
      OpsWithinFacts(ops[1..], x, names);
      NoPathOutside(ops[0], x.id);
    }
  }

  /** Every id is that of a contained op. */
  lemma {:induction false} FindOp(op: Op, id: nat) returns (x: Op, names: seq<string>)
    requires id in Ids(op)
    ensures Within(op, x, names) && x.id == id
    decreases op
  {
    if id == op.id {
      x, names := op, if op.TagRegion? then [op.name] else [];
    } else {
      match op
      case If(_, _, thenBlock, elseBlock, _) =>
        if id in OpsIds(thenBlock.ops) {
          x, names := FindInOps(thenBlock.ops, id);
        } else {
          x, names := FindInOps(elseBlock.ops, id);
        }
      case TagRegion(_, name, body, _) =>
        var inner;
        x, inner := FindInOps(body.ops, id);
        names := inner + [name];
        assert names[..|names| - 1] == inner;
    }
  }

  lemma {:induction false} FindInOps(ops: seq<Op>, id: nat) returns (x: Op, names: seq<string>)
    requires id in OpsIds(ops)
    ensures OpsWithin(ops, x, names) && x.id == id
    decreases ops
  {
    if id in Ids(ops[0]) {
      x, names := FindOp(ops[0], id);
    } else {
      x, names := FindInOps(ops[1..], id);
    }
  }

  // ----- Tagging -----

  /** The tags of an op; an op without the attribute has none. */
  function TagsOf(tags: map<nat, seq<string>>, id: nat): seq<string> {
    if id in tags then tags[id] else []
  }

  /** What the walk over the tag regions in `ops` adds to the tags of an op. */
  function Added(ops: seq<Op>, id: nat): seq<string> {
    if id in OpsTaggable(ops) then OpsPath(ops, id) else []
  }

  function AddedByOp(op: Op, id: nat): seq<string> {
    if id in Taggable(op) then Path(op, id) else []
  }

  function NameIn(ids: set<nat>, name: string, id: nat): seq<string> {
    if id in ids then [name] else []
  }

  /** Every op keeps its tags and gets some more; an op that gets none does not get the attribute. */
  ghost predicate Gained(before: map<nat, seq<string>>, after: map<nat, seq<string>>, added: nat -> seq<string>) {
    forall id: nat ::
      && TagsOf(after, id) == TagsOf(before, id) + added(id)
      && (id in after <==> id in before || added(id) != [])
  }

  lemma GainedTwice(a: map<nat, seq<string>>, b: map<nat, seq<string>>, c: map<nat, seq<string>>,
                    f: nat -> seq<string>, g: nat -> seq<string>, h: nat -> seq<string>)
    requires Gained(a, b, f) && Gained(b, c, g) && forall id: nat :: h(id) == f(id) + g(id)
    ensures Gained(a, c, h)
  {
    forall id: nat
      ensures TagsOf(c, id) == TagsOf(a, id) + h(id)
      ensures id in c <==> id in a || h(id) != []
    {
      hide TagsOf;
      ConcatAssociates(TagsOf(a, id), f(id), g(id));
    }
  }

  lemma GainedNothing(a: map<nat, seq<string>>, f: nat -> seq<string>)
    requires forall id: nat :: f(id) == []
    ensures Gained(a, a, f)
  {
  }

  /** Every op that is no empty tensor keeps its tags and gets the names of the regions around it,
      innermost first; nothing else changes. */
  ghost predicate Tagged(before: map<nat, seq<string>>, after: map<nat, seq<string>>, ops: seq<Op>) {
    && (forall x, names | OpsWithin(ops, x, names) && !x.Empty? && names != [] ::
          x.id in after && after[x.id] == (if x.id in before then before[x.id] else []) + names)
    && (forall x, names | OpsWithin(ops, x, names) && (x.Empty? || names == []) ::
          (x.id in after <==> x.id in before) && (x.id in before ==> after[x.id] == before[x.id]))
    && (forall id: nat | (forall x, names | OpsWithin(ops, x, names) :: x.id != id) ::
          (id in after <==> id in before) && (id in before ==> after[id] == before[id]))
  }

  lemma GainedAt(before: map<nat, seq<string>>, after: map<nat, seq<string>>, added: nat -> seq<string>, id: nat)
    requires Gained(before, after, added)
    ensures added(id) != [] ==> id in after && after[id] == (if id in before then before[id] else []) + added(id)
    ensures added(id) == [] ==> (id in after <==> id in before) && (id in before ==> after[id] == before[id])
  {
    assert TagsOf(after, id) == TagsOf(before, id) + added(id);
  }

  /** The name has been appended to the tags of every op in `op` that is no empty tensor. */
  ghost predicate Appended(before: map<nat, seq<string>>, after: map<nat, seq<string>>, op: Op, name: string) {
    && (forall x, names | Within(op, x, names) && !x.Empty? ::
          x.id in after && after[x.id] == (if x.id in before then before[x.id] else []) + [name])
    && (forall x, names | Within(op, x, names) && x.Empty? ::
          (x.id in after <==> x.id in before) && (x.id in before ==> after[x.id] == before[x.id]))
  }

  lemma {:induction false} GainedIsAppended(before: map<nat, seq<string>>, after: map<nat, seq<string>>, op: Op, name: string)
    requires DistinctIds(op) && Gained(before, after, (id: nat) => NameIn(Taggable(op), name, id))
    ensures Appended(before, after, op, name)
  {
    hide Gained, Ids, Taggable, Path, DistinctIds;
    forall x, names | Within(op, x, names)
      ensures !x.Empty? ==> x.id in after && after[x.id] == (if x.id in before then before[x.id] else []) + [name]
      ensures x.Empty? ==> (x.id in after <==> x.id in before) && (x.id in before ==> after[x.id] == before[x.id])
    {
      WithinFacts(op, x, names);
      GainedAt(before, after, (id: nat) => NameIn(Taggable(op), name, id), x.id);
    }
  }

  lemma {:induction false} GainedIsTagged(before: map<nat, seq<string>>, after: map<nat, seq<string>>, ops: seq<Op>)
    requires OpsDistinctIds(ops) && Gained(before, after, (id: nat) => Added(ops, id))
    ensures Tagged(before, after, ops)
  {
    hide Gained, OpsIds, OpsTaggable, OpsPath, OpsDistinctIds;
    forall id: nat
      ensures Added(ops, id) != [] ==> id in after && after[id] == (if id in before then before[id] else []) + Added(ops, id)
      ensures Added(ops, id) == [] ==> (id in after <==> id in before) && (id in before ==> after[id] == before[id])
    {
      GainedAt(before, after, (id: nat) => Added(ops, id), id);
    }
    forall x, names | OpsWithin(ops, x, names)
      ensures Added(ops, x.id) == if x.Empty? then [] else names
    {
      OpsWithinFacts(ops, x, names);
    }
    forall id: nat | (forall x, names | OpsWithin(ops, x, names) :: x.id != id)
      ensures Added(ops, id) == []
    {
      NothingAdded(ops, id);
    }
  }

  lemma {:induction false} NothingAdded(ops: seq<Op>, id: nat)
    requires forall x, names | OpsWithin(ops, x, names) :: x.id != id
    ensures Added(ops, id) == []
  {
    OpsTaggableAreIds(ops);
    if id in OpsIds(ops) {
      var x, names := FindInOps(ops, id);
    }
  }

  /** The `jasc_tags` attributes of the ops of a module. */
  class TagAttributes {
    var tags: map<nat, seq<string>>

    constructor ()
      ensures tags == map[]
    {
      tags := map[];
    }

    method Append(id: nat, name: string)
      modifies this
      ensures Gained(old(tags), tags, (k: nat) => NameIn({id}, name, k))
    {
      tags := tags[id := TagsOf(tags, id) + [name]];
    }

    /** Appends a name to the tags of an op and of all ops in it, outermost first. */
    method AppendToAll(op: Op, name: string)
      requires DistinctIds(op)
      modifies this
      ensures Gained(old(tags), tags, (id: nat) => NameIn(Taggable(op), name, id))
      ensures Appended(old(tags), tags, op, name)
      decreases op
    {
      hide Gained, OpsTaggable, OpsIds, Appended;
      match op {
        case Prim(id, _, _, _) =>
          Append(id, name);
          GainedNothing(tags, (k: nat) => []);
          GainedTwice(old(tags), tags, tags, (k: nat) => NameIn({id}, name, k), (k: nat) => [],
                      (k: nat) => NameIn(Taggable(op), name, k));
        case Empty(_, _) =>
          GainedNothing(tags, (k: nat) => NameIn(Taggable(op), name, k));
        case If(id, _, thenBlock, elseBlock, _) =>
          OpsTaggableAreIds(thenBlock.ops);
          OpsTaggableAreIds(elseBlock.ops);
          Append(id, name);
          ghost var t1 := tags;
          AppendToOps(thenBlock.ops, name);
          ghost var t2 := tags;
          AppendToOps(elseBlock.ops, name);
          ghost var both := {id} + OpsTaggable(thenBlock.ops);
          GainedTwice(old(tags), t1, t2, (k: nat) => NameIn({id}, name, k), (k: nat) => NameIn(OpsTaggable(thenBlock.ops), name, k),
                      (k: nat) => NameIn(both, name, k));
          GainedTwice(old(tags), t2, tags, (k: nat) => NameIn(both, name, k),
                      (k: nat) => NameIn(OpsTaggable(elseBlock.ops), name, k), (k: nat) => NameIn(Taggable(op), name, k));
        case TagRegion(id, _, body, _) =>
          OpsTaggableAreIds(body.ops);
          Append(id, name);
          ghost var t1 := tags;
          AppendToOps(body.ops, name);
          GainedTwice(old(tags), t1, tags, (k: nat) => NameIn({id}, name, k), (k: nat) => NameIn(OpsTaggable(body.ops), name, k),
                      (k: nat) => NameIn(Taggable(op), name, k));
      }
      GainedIsAppended(old(tags), tags, op, name);
    }

    method AppendToOps(ops: seq<Op>, name: string)
      requires OpsDistinctIds(ops)
      modifies this
      ensures Gained(old(tags), tags, (id: nat) => NameIn(OpsTaggable(ops), name, id))
      decreases ops
    {
      hide Gained;
      if ops == [] {
        GainedNothing(tags, (k: nat) => NameIn(OpsTaggable(ops), name, k));
      } else {
        TaggableAreIds(ops[0]);
        OpsTaggableAreIds(ops[1..]);
        AppendToAll(ops[0], name);
        ghost var t1 := tags;
        AppendToOps(ops[1..], name);
        GainedTwice(old(tags), t1, tags, (k: nat) => NameIn(Taggable(ops[0]), name, k),
                    (k: nat) => NameIn(OpsTaggable(ops[1..]), name, k), (k: nat) => NameIn(OpsTaggable(ops), name, k));
      }
    }

    /** The walk over all tag regions, inner regions before outer ones: every op other than
        `tensor.empty` keeps its tags and gets the names of its regions, innermost first. */
    method TagOps(ops: seq<Op>)
      requires OpsDistinctIds(ops)
      modifies this
      ensures Gained(old(tags), tags, (id: nat) => Added(ops, id))
      ensures Tagged(old(tags), tags, ops)
      decreases ops
    {
      hide Gained, Tagged;
      if ops == [] {
        GainedNothing(tags, (id: nat) => Added(ops, id));
      } else {
        TagOp(ops[0]);
        ghost var t1 := tags;
        TagOps(ops[1..]);
        forall id: nat
          ensures Added(ops, id) == AddedByOp(ops[0], id) + Added(ops[1..], id)
        {
          AddedStep(ops, id);
        }
        GainedTwice(old(tags), t1, tags, (id: nat) => AddedByOp(ops[0], id), (id: nat) => Added(ops[1..], id), (id: nat) => Added(ops, id));
      }
      GainedIsTagged(old(tags), tags, ops);
    }

    method TagOp(op: Op)
      requires DistinctIds(op)
      modifies this
      ensures Gained(old(tags), tags, (id: nat) => AddedByOp(op, id))
      decreases op
    {
      hide Gained;
      if op.If? {
        TagOps(op.thenBlock.ops);
        ghost var t1 := tags;
        TagOps(op.elseBlock.ops);
        forall id: nat
          ensures AddedByOp(op, id) == Added(op.thenBlock.ops, id) + Added(op.elseBlock.ops, id)
        {
          IfPath(op, id);
        }
        GainedTwice(old(tags), t1, tags, (id: nat) => Added(op.thenBlock.ops, id), (id: nat) => Added(op.elseBlock.ops, id),
                    (id: nat) => AddedByOp(op, id));
      } else if op.TagRegion? {
        TagOps(op.body.ops);
        ghost var t1 := tags;
        AppendToAll(op, op.name);
        forall id: nat
          ensures AddedByOp(op, id) == Added(op.body.ops, id) + NameIn(Taggable(op), op.name, id)
        {
          RegionPath(op, id);
        }
        GainedTwice(old(tags), t1, tags, (id: nat) => Added(op.body.ops, id), (id: nat) => NameIn(Taggable(op), op.name, id),
                    (id: nat) => AddedByOp(op, id));
      } else {
        GainedNothing(tags, (id: nat) => AddedByOp(op, id));
      }
    }
  }

  lemma {:induction false} AddedStep(ops: seq<Op>, id: nat)
    requires ops != [] && OpsDistinctIds(ops)
    ensures Added(ops, id) == AddedByOp(ops[0], id) + Added(ops[1..], id)
  {
    TaggableAreIds(ops[0]);
    OpsTaggableAreIds(ops[1..]);
    if id !in Ids(ops[0]) {
      NoPathOutside(ops[0], id);
    }
    if id !in OpsIds(ops[1..]) {
      NoOpsPathOutside(ops[1..], id);
    }
  }

  lemma {:induction false} IfPath(op: Op, id: nat)
    requires op.If? && DistinctIds(op)
    ensures AddedByOp(op, id) == Added(op.thenBlock.ops, id) + Added(op.elseBlock.ops, id)
  {
    var a, b := op.thenBlock.ops, op.elseBlock.ops;
    OpsTaggableAreIds(a);
    OpsTaggableAreIds(b);
    if id !in OpsIds(a) {
      NoOpsPathOutside(a, id);
    }
    if id !in OpsIds(b) {
      NoOpsPathOutside(b, id);
    }
  }

  lemma {:induction false} RegionPath(op: Op, id: nat)
    requires op.TagRegion? && DistinctIds(op)
    ensures AddedByOp(op, id) == Added(op.body.ops, id) + NameIn(Taggable(op), op.name, id)
  {
    var ops := op.body.ops;
    OpsTaggableAreIds(ops);
    TaggableAreIds(op);
    if id == op.id {
      NoOpsPathOutside(ops, id);
    }
  }

  // ----- Selection -----

  /** The op has the attribute, and its tags start with the requested ones. */
  predicate IsMatch(id: nat, tags: map<nat, seq<string>>, requested: seq<string>) {
    id in tags && requested <= tags[id]
  }

  /** The ops that match, in order. */
  function Matching(targets: seq<nat>, tags: map<nat, seq<string>>, requested: seq<string>): seq<nat> {
    if targets == [] then []
    else (if IsMatch(targets[0], tags, requested) then [targets[0]] else []) + Matching(targets[1..], tags, requested)
  }

  lemma {:induction false} MatchingSnoc(targets: seq<nat>, id: nat, tags: map<nat, seq<string>>, requested: seq<string>)
    ensures Matching(targets + [id], tags, requested)
         == Matching(targets, tags, requested) + (if IsMatch(id, tags, requested) then [id] else [])
    decreases targets
  {
    hide IsMatch;
    var last := if IsMatch(id, tags, requested) then [id] else [];
    var all := targets + [id];
    if targets == [] {
      assert all == [id] && all[1..] == [] && last + [] == last;
    } else {
      assert all[0] == targets[0] && all[1..] == targets[1..] + [id];
      MatchingSnoc(targets[1..], id, tags, requested);
      var first := if IsMatch(targets[0], tags, requested) then [targets[0]] else [];
      ConcatAssociates(first, Matching(targets[1..], tags, requested), last);
    }
  }

  lemma {:induction false} MatchingIsSelection(targets: seq<nat>, tags: map<nat, seq<string>>, requested: seq<string>)
    ensures IsSelection((id: nat) => id in tags && |requested| <= |tags[id]|
                                     && forall k | 0 <= k < |requested| :: tags[id][k] == requested[k],
                        targets, Matching(targets, tags, requested))
    decreases targets
  {
    var p := (id: nat) => id in tags && |requested| <= |tags[id]|
                          && forall k | 0 <= k < |requested| :: tags[id][k] == requested[k];
    if targets == [] {
      NothingSelected(p);
    } else {
      MatchingIsSelection(targets[1..], tags, requested);
      SelectionCons(p, targets, Matching(targets[1..], tags, requested));
      hide IsSelection;
      assert p(targets[0]) <==> IsMatch(targets[0], tags, requested);
    }
  }

  /** The match of the transform op: a loop over the targets, and over the requested tags. */
  method MatchTag(targets: seq<nat>, tags: map<nat, seq<string>>, requested: seq<string>)
    returns (matchedOps: seq<nat>)
    ensures matchedOps == Matching(targets, tags, requested)
    ensures IsSelection((id: nat) => id in tags && |requested| <= |tags[id]|
                                     && forall k | 0 <= k < |requested| :: tags[id][k] == requested[k],
                        targets, matchedOps)
  {
    MatchingIsSelection(targets, tags, requested);
    hide IsSelection;
    matchedOps := [];
    for n := 0 to |targets|
      invariant matchedOps == Matching(targets[..n], tags, requested)
    {
      var op := targets[n];
      assert targets[..n + 1] == targets[..n] + [op];
      MatchingSnoc(targets[..n], op, tags, requested);
      if op !in tags {
        continue;
      }
      if |tags[op]| < |requested| {
        continue;
      }
      var isMatch := true;
      for i := 0 to |requested|
        invariant isMatch && requested[..i] == tags[op][..i]
      {
        if tags[op][i] != requested[i] {
          isMatch := false;
          break;
        }
      }
      if !isMatch {
        continue;
      }
      matchedOps := matchedOps + [op];
    }
    assert targets[..|targets|] == targets;
  }

  /** The targets, in order, that are in a tag region and whose path starts with the requested names. */
  function SelectedByPath(ops: seq<Op>, targets: seq<nat>, requested: seq<string>): seq<nat> {
    if targets == [] then []
    else
      (if Added(ops, targets[0]) != [] && requested <= Added(ops, targets[0]) then [targets[0]] else [])
      + SelectedByPath(ops, targets[1..], requested)
  }

  /** The op with the given id is no empty tensor, it is in a region, and the names of the regions
      around it, innermost first, start with the requested ones. */
  ghost predicate Wanted(ops: seq<Op>, requested: seq<string>, id: nat) {
    exists x, names | OpsWithin(ops, x, names) ::
      && x.id == id && !x.Empty? && names != [] && |requested| <= |names|
      && forall k | 0 <= k < |requested| :: names[k] == requested[k]
  }

  lemma {:induction false} WantedByPath(ops: seq<Op>, requested: seq<string>, id: nat)
    requires OpsDistinctIds(ops)
    ensures Wanted(ops, requested, id) <==> Added(ops, id) != [] && requested <= Added(ops, id)
  {
    hide OpsDistinctIds, OpsIds, OpsTaggable, OpsPath;
    OpsTaggableAreIds(ops);
    if Wanted(ops, requested, id) {
      var x, names :| OpsWithin(ops, x, names) && x.id == id && !x.Empty? && names != [] && |requested| <= |names|
        && forall k | 0 <= k < |requested| :: names[k] == requested[k];
      OpsWithinFacts(ops, x, names);
      assert names[..|requested|] == requested;
    }
    if Added(ops, id) != [] && requested <= Added(ops, id) {
      var x, names := FindInOps(ops, id);
      OpsWithinFacts(ops, x, names);
      assert Wanted(ops, requested, id);
    }
  }

  lemma {:induction false} SelectedIsSelection(ops: seq<Op>, targets: seq<nat>, requested: seq<string>)
    requires OpsDistinctIds(ops)
    ensures IsSelection((id: nat) => Wanted(ops, requested, id), targets, SelectedByPath(ops, targets, requested))
    decreases targets
  {
    hide OpsDistinctIds, Wanted, Added, IsSelection;
    var p := (id: nat) => Wanted(ops, requested, id);
    if targets == [] {
      NothingSelected(p);
    } else {
      SelectedIsSelection(ops, targets[1..], requested);
      SelectionCons(p, targets, SelectedByPath(ops, targets[1..], requested));
      WantedByPath(ops, requested, targets[0]);
    }
  }

  lemma {:induction false} MatchingIsByPath(ops: seq<Op>, tags: map<nat, seq<string>>, targets: seq<nat>,
                                            requested: seq<string>)
    requires Gained(map[], tags, (id: nat) => Added(ops, id))
    ensures Matching(targets, tags, requested) == SelectedByPath(ops, targets, requested)
    decreases targets
  {
    hide Gained, Added;
    if targets != [] {
      GainedAt(map[], tags, (id: nat) => Added(ops, id), targets[0]);
      assert [] + Added(ops, targets[0]) == Added(ops, targets[0]);
      MatchingIsByPath(ops, tags, targets[1..], requested);
    }
  }

  /** Tagging untagged ops and matching then selects the ops by their path. */
  method TagAndMatch(ops: seq<Op>, targets: seq<nat>, requested: seq<string>) returns (matchedOps: seq<nat>)
    requires OpsDistinctIds(ops)
    ensures matchedOps == SelectedByPath(ops, targets, requested)
    ensures IsSelection((id: nat) => Wanted(ops, requested, id), targets, matchedOps)
  {
    SelectedIsSelection(ops, targets, requested);
    hide IsSelection, Tagged;
    var attributes := new TagAttributes();
    attributes.TagOps(ops);
    var tags := attributes.tags;
    matchedOps := MatchTag(targets, tags, requested);
    MatchingIsByPath(ops, tags, targets, requested);
  }
}
