/** Events and paths. */
module ProfilePaths {
  // What an event says, in terms of the nodes and their children alone: when its sample was taken, and which nodes
  // lie between the root and the node that was sampled.

  import opened Options
  import opened CpuProfile

  predicate Lists(nodes: seq<Node>, i: nat, c: nat)
    requires i < |nodes| && c < |nodes|
  {
    nodes[c].id in nodes[i].children
  }

  /** No node lists this one. */
  predicate Unlisted(nodes: seq<Node>, c: nat)
    requires c < |nodes|
  {
    forall i :: 0 <= i < |nodes| ==> !Lists(nodes, i, c)
  }

  /** The first node nobody lists. */
  predicate FirstUnlisted(nodes: seq<Node>, root: Option<nat>) {
    match root
    case None => forall c :: 0 <= c < |nodes| ==> !Unlisted(nodes, c)
    case Some(r) => r < |nodes| && Unlisted(nodes, r) && forall c :: 0 <= c < r ==> !Unlisted(nodes, c)
  }

  /** A way down from below the root, or from another node nobody lists. */
  predicate Descends(nodes: seq<Node>, root: Option<nat>, path: seq<nat>) {
    && path != [] && (forall i :: 0 <= i < |path| ==> path[i] < |nodes|)
    && (forall i :: 0 < i < |path| ==> Lists(nodes, path[i - 1], path[i]))
    && Some(path[0]) != root
    && (Unlisted(nodes, path[0]) || (root.Some? && root.value < |nodes| && Lists(nodes, root.value, path[0])))
  }

  function FramesOf(nodes: seq<Node>, path: seq<nat>): seq<string>
    requires forall i :: 0 <= i < |path| ==> path[i] < |nodes|
  {
    seq(|path|, i requires 0 <= i < |path| => nodes[path[i]].frame)
  }

  // ---------- One parent ----------

  lemma {:induction false} ChildPlace(nodes: seq<Node>, i: nat, x: int) returns (a: nat)
    requires i < |nodes| && x in nodes[i].children
    ensures a < |AllChildren(nodes)| && AllChildren(nodes)[a] == x
    decreases |nodes|
  {
    var n := |nodes| - 1;
    if i < n {
      a := ChildPlace(nodes[..n], i, x);
    } else {
      var k :| 0 <= k < |nodes[n].children| && nodes[n].children[k] == x;
      a := |AllChildren(nodes[..n])| + k;
    }
  }

  lemma {:induction false} ListedOnce(nodes: seq<Node>, i: nat, j: nat, x: int) returns (a: nat, b: nat)
    requires i < j < |nodes| && x in nodes[i].children && x in nodes[j].children
    ensures a < b < |AllChildren(nodes)| && AllChildren(nodes)[a] == AllChildren(nodes)[b]
    decreases |nodes|
  {
    var n := |nodes| - 1;
    if j < n {
      a, b := ListedOnce(nodes[..n], i, j, x);
    } else {
      a := ChildPlace(nodes[..n], i, x);
      var k :| 0 <= k < |nodes[n].children| && nodes[n].children[k] == x;
      b := |AllChildren(nodes[..n])| + k;
    }
  }

  /** So the parent found is the one node that lists the child. */
  lemma ParentLists(nodes: seq<Node>, ids: Ids, parents: Parents, p: nat, c: nat)
    requires AreParents(nodes, parents) && TreeOk(ids, AllChildren(nodes)) && p < |nodes| && c < |nodes|
    ensures parents[c] == Some(p) <==> Lists(nodes, p, c)
    ensures parents[c].None? <==> Unlisted(nodes, c)
  {
    assert IsParent(nodes, c, parents[c]);
    if Lists(nodes, p, c) && parents[c].Some? && parents[c].value != p {
      var a, b := ListedOnce(nodes, if p < parents[c].value then p else parents[c].value,
                             if p < parents[c].value then parents[c].value else p, nodes[c].id);
    }
  }

  // ---------- The stack ----------

  lemma {:induction false} UpIsBack(nodes: seq<Node>, ids: Ids, parents: Parents, root: Option<nat>, path: seq<nat>, k: nat)
    requires AreParents(nodes, parents) && InRange(parents) && TreeOk(ids, AllChildren(nodes)) && FirstUnlisted(nodes, root)
    requires Descends(nodes, root, path) && k <= |path|
    ensures Up(parents, root, path[|path| - 1], k) == if k < |path| then Some(path[|path| - 1 - k]) else None
  {
    var leaf := path[|path| - 1];
    hide FirstUnlisted;
    if k == 0 {
      NotRoot(nodes, root, path, |path| - 1);
    } else {
      UpIsBack(nodes, ids, parents, root, path, k - 1);
      var c := path[|path| - k];
      if k < |path| {
        ParentLists(nodes, ids, parents, path[|path| - 1 - k], c);
        NotRoot(nodes, root, path, |path| - 1 - k);
      } else if Unlisted(nodes, c) {
        ParentLists(nodes, ids, parents, c, c);
      } else {
        ParentLists(nodes, ids, parents, root.value, c);
      }
    }
  }

  lemma NotRoot(nodes: seq<Node>, root: Option<nat>, path: seq<nat>, i: nat)
    requires FirstUnlisted(nodes, root) && Descends(nodes, root, path) && i < |path|
    ensures Some(path[i]) != root
  {
    if i > 0 { assert Lists(nodes, path[i - 1], path[i]); }
  }

  /** The stack of a node is the way down to it. */
  lemma StackIsPath(nodes: seq<Node>, ids: Ids, parents: Parents, root: Option<nat>, path: seq<nat>)
    requires AreParents(nodes, parents) && InRange(parents) && TreeOk(ids, AllChildren(nodes)) && FirstUnlisted(nodes, root)
    requires Descends(nodes, root, path)
    ensures Ends(parents, root, path[|path| - 1])
    ensures StackOf(nodes, parents, root, path[|path| - 1]) == FramesOf(nodes, path)
  {
    hide Up, IsParent, TreeOk, FirstUnlisted, Descends;
    assert path != [] && forall i :: 0 <= i < |path| ==> path[i] < |nodes| by { InPath(nodes, root, path); }
    var leaf := path[|path| - 1];
    forall k: nat | k <= |path|
      ensures Up(parents, root, leaf, k) == if k < |path| then Some(path[|path| - 1 - k]) else None
    {
      UpIsBack(nodes, ids, parents, root, path, k);
    }
    WalkEnded(parents, root, leaf, |path|);
  }

  lemma InPath(nodes: seq<Node>, root: Option<nat>, path: seq<nat>)
    requires Descends(nodes, root, path)
    ensures path != [] && forall i :: 0 <= i < |path| ==> path[i] < |nodes|
  {
  }

  lemma RootIsFirst(nodes: seq<Node>, ids: Ids, parents: Parents, root: Option<nat>)
    requires AreParents(nodes, parents) && TreeOk(ids, AllChildren(nodes))
    ensures IsRoot(parents, root) <==> FirstUnlisted(nodes, root)
  {
    hide TreeOk, Unlisted;
    forall c | 0 <= c < |nodes|
      ensures parents[c].None? <==> Unlisted(nodes, c)
    {
      ParentLists(nodes, ids, parents, c, c);
    }
  }

  // ---------- The events ----------

  function Sum(samples: seq<Sampling>): int {
    if samples == [] then 0 else samples[0].delta + Sum(samples[1..])
  }

  lemma {:induction false} SumJoins(a: seq<Sampling>, s: Sampling)
    ensures Sum(a + [s]) == Sum(a) + s.delta
    decreases |a|
  {
    if a == [] {
      assert (a + [s])[1..] == [];
    } else {
      assert (a + [s])[1..] == a[1..] + [s];
      SumJoins(a[1..], s);
    }
  }

  lemma {:induction false} ElapsedIsSum(samples: seq<Sampling>)
    ensures Elapsed(samples) == Sum(samples)
    decreases |samples|
  {
    if samples != [] {
      var n := |samples| - 1;
      ElapsedIsSum(samples[..n]);
      SumJoins(samples[..n], samples[n]);
      assert samples == samples[..n] + [samples[n]];
    }
  }

  /** How many samples were taken elsewhere than at the root. */
  function Counted(ids: Ids, root: Option<nat>, samples: seq<Sampling>): nat
    requires forall s :: s in samples ==> s.id in ids
  {
    if samples == [] then 0
    else Counted(ids, root, samples[..|samples| - 1]) + if Some(ids[samples[|samples| - 1].id]) == root then 0 else 1
  }

  lemma {:induction false} EventPlace(nodes: seq<Node>, ids: Ids, parents: Parents, root: Option<nat>, start: int, samples: seq<Sampling>, j: nat)
    requires InRange(parents) && |parents| == |nodes| && j < |samples|
    requires forall s :: s in samples ==> s.id in ids && ids[s.id] < |nodes|
    requires Some(ids[samples[j].id]) != root
    ensures |EventsOf(nodes, ids, parents, root, start, samples)| == Counted(ids, root, samples)
    ensures Counted(ids, root, samples[..j]) < Counted(ids, root, samples)
    ensures EventsOf(nodes, ids, parents, root, start, samples)[Counted(ids, root, samples[..j])] ==
            Event((start + Elapsed(samples[..j + 1])) * 1000, StackOf(nodes, parents, root, ids[samples[j].id]))
    decreases |samples|
  {
    hide StackOf, Elapsed;
    var n := |samples| - 1;
    assert forall s :: s in samples[..n] ==> s in samples;
    EventCount(nodes, ids, parents, root, start, samples[..n]);
    if j < n {
      assert samples[..n][..j] == samples[..j] && samples[..n][..j + 1] == samples[..j + 1] && samples[..n][j] == samples[j];
      EventPlace(nodes, ids, parents, root, start, samples[..n], j);
    } else {
      assert samples[..j + 1] == samples;
    }
  }

  lemma {:induction false} EventCount(nodes: seq<Node>, ids: Ids, parents: Parents, root: Option<nat>, start: int, samples: seq<Sampling>)
    requires InRange(parents) && |parents| == |nodes|
    requires forall s :: s in samples ==> s.id in ids && ids[s.id] < |nodes|
    ensures |EventsOf(nodes, ids, parents, root, start, samples)| == Counted(ids, root, samples)
    decreases |samples|
  {
    hide StackOf, Elapsed;
    if samples != [] {
      assert forall s :: s in samples[..|samples| - 1] ==> s in samples;
      EventCount(nodes, ids, parents, root, start, samples[..|samples| - 1]);
    }
  }

  /** The event of a sample not at the root: its time is the sum of all time steps so far, and its stack the way
      down to the node that was sampled. There is one event for each such sample, in their order. */
  lemma EventsTell(nodes: seq<Node>, ids: Ids, parents: Parents, root: Option<nat>, start: int, samples: seq<Sampling>, j: nat, path: seq<nat>)
    requires Indexes(nodes, ids) && AreParents(nodes, parents) && InRange(parents) && TreeOk(ids, AllChildren(nodes)) && IsRoot(parents, root)
    requires j < |samples| && forall s :: s in samples ==> s.id in ids
    requires Descends(nodes, root, path) && nodes[path[|path| - 1]].id == samples[j].id && DistinctIds(nodes)
    ensures FirstUnlisted(nodes, root)
    ensures var events := EventsOf(nodes, ids, parents, root, start, samples);
            && |events| == Counted(ids, root, samples) && Counted(ids, root, samples[..j]) < |events|
            && events[Counted(ids, root, samples[..j])] == Event(1000 * (start + Sum(samples[..j + 1])), FramesOf(nodes, path))
  {
    RootIsFirst(nodes, ids, parents, root);
    StackIsPath(nodes, ids, parents, root, path);
    NotRoot(nodes, root, path, |path| - 1);
    ElapsedIsSum(samples[..j + 1]);
    assert samples[j] in samples && ids[samples[j].id] == path[|path| - 1] by { OneIndex(nodes, ids, path[|path| - 1]); }
    EventPlace(nodes, ids, parents, root, start, samples, j);
  }

  lemma OneIndex(nodes: seq<Node>, ids: Ids, i: nat)
    requires Indexes(nodes, ids) && DistinctIds(nodes) && i < |nodes|
    ensures nodes[i].id in ids && ids[nodes[i].id] == i
  {
    assert nodes[i].id in ids;
    SameId(nodes, i, ids[nodes[i].id]);
  }

  lemma SameId(nodes: seq<Node>, i: nat, k: nat)
    requires DistinctIds(nodes) && i < |nodes| && k < |nodes| && nodes[i].id == nodes[k].id
    ensures i == k
  {
  }

  /** There is a way down to every node that is not the root and not in a loop. */
  lemma WayDown(nodes: seq<Node>, ids: Ids, parents: Parents, root: Option<nat>, leaf: nat) returns (path: seq<nat>)
    requires AreParents(nodes, parents) && InRange(parents) && TreeOk(ids, AllChildren(nodes)) && IsRoot(parents, root)
    requires leaf < |nodes| && Some(leaf) != root && Ends(parents, root, leaf)
    ensures Descends(nodes, root, path) && path[|path| - 1] == leaf
  {
    hide TreeOk, IsParent, Up, Ends;
    EndsSoonOrNever(parents, root, leaf);
    var d := Depth(parents, root, leaf, 0);
    UpStarts(parents, root, leaf);
    path := seq(d, i requires 0 <= i < d => Up(parents, root, leaf, d - 1 - i).value);
    forall i | 0 < i < d
      ensures Lists(nodes, path[i - 1], path[i])
    {
      UpSteps(parents, root, leaf, d - 1 - i);
      ParentLists(nodes, ids, parents, path[i - 1], path[i]);
    }
    UpSteps(parents, root, leaf, d - 1);
    ParentLists(nodes, ids, parents, if root.Some? then root.value else leaf, path[0]);
  }
}
