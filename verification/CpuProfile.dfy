/** Samples of a call tree turned into stacks. */
module CpuProfile {
  // By a parent walk with a hop guard.

  import opened Options

  datatype Node = Node(id: int, children: seq<int>, frame: string)

  datatype Error = DuplicateId | BadChild | UnknownSample | Loop

  type Ids = map<int, nat>

  /** Parent places, by place in the node list. */
  type Parents = seq<Option<nat>>

  // ---------- The tree ----------

  predicate DistinctIds(nodes: seq<Node>) {
    forall i, j :: 0 <= i < j < |nodes| ==> nodes[i].id != nodes[j].id
  }

  ghost predicate Indexes(nodes: seq<Node>, ids: Ids) {
    && (forall id :: id in ids ==> ids[id] < |nodes| && nodes[ids[id]].id == id)
    && (forall i :: 0 <= i < |nodes| ==> nodes[i].id in ids)
  }

  method IndexIds(nodes: seq<Node>) returns (ok: bool, ids: Ids)
    ensures ok <==> DistinctIds(nodes)
    ensures ok ==> Indexes(nodes, ids)
  {
    ids := map[];
    for i := 0 to |nodes|
      invariant DistinctIds(nodes[..i]) && Indexes(nodes[..i], ids)
    {
      if nodes[i].id in ids {
        var j := ids[nodes[i].id];
        assert nodes[j].id == nodes[i].id && j < i;
        return false, ids;
      }
      ids := ids[nodes[i].id := i];
      assert nodes[..i + 1] == nodes[..i] + [nodes[i]];
    }
    assert nodes[..|nodes|] == nodes;
    ok := true;
  }

  /** `p` is the only node that lists the `c`-th one as a child, or no node does. */
  predicate IsParent(nodes: seq<Node>, c: nat, p: Option<nat>)
    requires c < |nodes|
  {
    match p
    case None => forall i :: 0 <= i < |nodes| ==> nodes[c].id !in nodes[i].children
    case Some(k) => k < |nodes| && nodes[c].id in nodes[k].children
  }

  ghost predicate AreParents(nodes: seq<Node>, parents: Parents) {
    |parents| == |nodes| && forall c :: 0 <= c < |nodes| ==> IsParent(nodes, c, parents[c])
  }

  // ---------- The parent walk ----------

  predicate InRange(parents: Parents) {
    forall i :: 0 <= i < |parents| ==> parents[i].Some? ==> parents[i].value < |parents|
  }

  /** The `k`-th step up from a node; nothing behind a node without parent, or behind the root. */
  function Up(parents: Parents, root: Option<nat>, leaf: nat, k: nat): (r: Option<nat>)
    requires InRange(parents) && leaf < |parents|
    ensures r.Some? ==> r.value < |parents| && r != root
  {
    if k == 0 then (if Some(leaf) == root then None else Some(leaf))
    else
      var below := Up(parents, root, leaf, k - 1);
      if below.None? then None
      else
        var p := parents[below.value];
        if p == root then None else p
  }

  /** The walk from a node ends. */
  ghost predicate Ends(parents: Parents, root: Option<nat>, leaf: nat)
    requires InRange(parents) && leaf < |parents|
  {
    exists k: nat :: Up(parents, root, leaf, k).None?
  }

  lemma {:induction false} EndedStaysEnded(parents: Parents, root: Option<nat>, leaf: nat, k: nat, m: nat)
    requires InRange(parents) && leaf < |parents| && Up(parents, root, leaf, k).None? && k <= m
    ensures Up(parents, root, leaf, m).None?
  {
    if k < m { EndedStaysEnded(parents, root, leaf, k, m - 1); }
  }

  lemma {:induction false} SameStepsUp(parents: Parents, root: Option<nat>, leaf: nat, i: nat, j: nat, m: nat)
    requires InRange(parents) && leaf < |parents| && Up(parents, root, leaf, i) == Up(parents, root, leaf, j)
    ensures Up(parents, root, leaf, i + m) == Up(parents, root, leaf, j + m)
  {
    if m > 0 { SameStepsUp(parents, root, leaf, i, j, m - 1); }
  }

  /** A walk that comes back to where it was never ends. */
  lemma {:induction false} RepeatNeverEnds(parents: Parents, root: Option<nat>, leaf: nat, i: nat, j: nat, k: nat)
    requires InRange(parents) && leaf < |parents| && i < j
    requires Up(parents, root, leaf, i).Some? && Up(parents, root, leaf, i) == Up(parents, root, leaf, j)
    ensures Up(parents, root, leaf, k).Some?
    decreases k
  {
    if k <= i {
      if Up(parents, root, leaf, k).None? { EndedStaysEnded(parents, root, leaf, k, i); }
    } else if k <= j {
      if Up(parents, root, leaf, k).None? { EndedStaysEnded(parents, root, leaf, k, j); }
    } else {
      RepeatNeverEnds(parents, root, leaf, i, j, k - (j - i));
      SameStepsUp(parents, root, leaf, i, j, k - j);
    }
  }

  /** Places in a list of numbers below `n`. */
  predicate Below(xs: seq<nat>, n: nat) { forall i :: 0 <= i < |xs| ==> xs[i] < n }

  lemma {:induction false} Pigeonhole(xs: seq<nat>, n: nat) returns (i: nat, j: nat)
    requires Below(xs, n) && |xs| > n
    ensures i < j < |xs| && xs[i] == xs[j]
    decreases n
  {
    var last := |xs| - 1;
    if k: nat :| k < last && xs[k] == xs[last] {
      i, j := k, last;
    } else {
      var ys := seq(last, k requires 0 <= k < last => if xs[k] == n - 1 then xs[last] else xs[k]);
      assert xs[0] < n;
      i, j := Pigeonhole(ys, n - 1);
    }
  }

  /** Within as many steps as there are nodes, a walk has ended or never will. */
  lemma EndsSoonOrNever(parents: Parents, root: Option<nat>, leaf: nat)
    requires InRange(parents) && leaf < |parents|
    ensures Ends(parents, root, leaf) <==> Up(parents, root, leaf, |parents|).None?
  {
    var n := |parents|;
    if Up(parents, root, leaf, n).Some? {
      forall k: nat | k <= n
        ensures Up(parents, root, leaf, k).Some?
      {
        if Up(parents, root, leaf, k).None? { EndedStaysEnded(parents, root, leaf, k, n); }
      }
      var xs := seq(n + 1, k requires 0 <= k <= n => Up(parents, root, leaf, k).value);
      var i, j := Pigeonhole(xs, n);
      forall k: nat
        ensures Up(parents, root, leaf, k).Some?
      {
        RepeatNeverEnds(parents, root, leaf, i, j, k);
      }
    }
  }

  // ---------- Building the parent places ----------

  function AllChildren(nodes: seq<Node>): seq<int> {
    if nodes == [] then [] else AllChildren(nodes[..|nodes| - 1]) + nodes[|nodes| - 1].children
  }

  predicate Distinct(xs: seq<int>) {
    forall i, j :: 0 <= i < j < |xs| ==> xs[i] != xs[j]
  }

  /** The children listed so far have got their parents, each of them once. */
  ghost predicate Placed(nodes: seq<Node>, listed: seq<int>, parents: Parents) {
    && |parents| == |nodes|
    && forall c :: 0 <= c < |nodes| ==>
         if nodes[c].id in listed then parents[c].Some? && parents[c].value < |nodes| && nodes[c].id in nodes[parents[c].value].children
         else parents[c].None?
  }

  /** A tree only if every child is known and listed once. */
  predicate TreeOk(ids: Ids, listed: seq<int>) {
    Distinct(listed) && forall c :: c in listed ==> c in ids
  }

  method PlaceChild(nodes: seq<Node>, ids: Ids, parents0: Parents, i: nat, child: int, ghost listed: seq<int>)
    returns (ok: bool, parents: Parents)
    requires DistinctIds(nodes) && Indexes(nodes, ids) && Placed(nodes, listed, parents0) && TreeOk(ids, listed)
    requires i < |nodes| && child in nodes[i].children
    ensures ok <==> TreeOk(ids, listed + [child])
    ensures ok ==> Placed(nodes, listed + [child], parents)
  {
    parents := parents0;
    var more := listed + [child];
    assert more[|listed|] == child;
    if child !in ids {
      assert child in more;
      return false, parents;
    }
    var c := ids[child];
    if parents[c].Some? {
      ghost var j :| 0 <= j < |listed| && listed[j] == child;
      assert more[j] == more[|listed|];
      return false, parents;
    }
    parents := parents[c := Some(i)];
    ok := true;
  }

  method BuildParents(nodes: seq<Node>, ids: Ids) returns (ok: bool, parents: Parents)
    requires DistinctIds(nodes) && Indexes(nodes, ids)
    ensures ok <==> TreeOk(ids, AllChildren(nodes))
    ensures ok ==> AreParents(nodes, parents) && InRange(parents)
  {
    parents := seq(|nodes|, _ => None);
    ok := true;
    for i := 0 to |nodes|
      invariant ok && TreeOk(ids, AllChildren(nodes[..i])) && Placed(nodes, AllChildren(nodes[..i]), parents)
    {
      assert nodes[..i + 1][..i] == nodes[..i];
      ok, parents := PlaceChildren(nodes, ids, parents, i);
      if !ok {
        MoreChildren(ids, nodes, i + 1);
        return;
      }
    }
    assert nodes[..|nodes|] == nodes;
    ListedSomewhere(nodes);
  }

  method PlaceChildren(nodes: seq<Node>, ids: Ids, parents0: Parents, i: nat) returns (ok: bool, parents: Parents)
    requires DistinctIds(nodes) && Indexes(nodes, ids) && i < |nodes|
    requires TreeOk(ids, AllChildren(nodes[..i])) && Placed(nodes, AllChildren(nodes[..i]), parents0)
    ensures ok <==> TreeOk(ids, AllChildren(nodes[..i]) + nodes[i].children)
    ensures ok ==> Placed(nodes, AllChildren(nodes[..i]) + nodes[i].children, parents)
  {
    ghost var before := AllChildren(nodes[..i]);
    var children := nodes[i].children;
    parents, ok := parents0, true;
    assert before + children[..0] == before;
    for k := 0 to |children|
      invariant ok && TreeOk(ids, before + children[..k]) && Placed(nodes, before + children[..k], parents)
    {
      ok, parents := PlaceChild(nodes, ids, parents, i, children[k], before + children[..k]);
      assert before + children[..k] + [children[k]] == before + children[..k + 1];
      if !ok {
        NotOkStays(ids, before + children[..k + 1], children[k + 1..]);
        assert before + children[..k + 1] + children[k + 1..] == before + children;
        return;
      }
    }
    assert children[..|children|] == children;
  }

  lemma NotOkStays(ids: Ids, a: seq<int>, b: seq<int>)
    requires !TreeOk(ids, a)
    ensures !TreeOk(ids, a + b)
  {
    if !Distinct(a) {
      var i, j :| 0 <= i < j < |a| && a[i] == a[j];
      assert (a + b)[i] == (a + b)[j];
    } else {
      var c :| c in a && c !in ids;
      assert c in a + b;
    }
  }

  lemma {:induction false} MoreChildren(ids: Ids, nodes: seq<Node>, i: nat)
    requires i <= |nodes| && !TreeOk(ids, AllChildren(nodes[..i]))
    ensures !TreeOk(ids, AllChildren(nodes))
    decreases |nodes|
  {
    if i == |nodes| {
      assert nodes[..i] == nodes;
    } else {
      var n := |nodes| - 1;
      assert nodes[..n][..i] == nodes[..i];
      MoreChildren(ids, nodes[..n], i);
      NotOkStays(ids, AllChildren(nodes[..n]), nodes[n].children);
    }
  }

  lemma {:induction false} ListedSomewhere(nodes: seq<Node>)
    ensures forall x, i :: 0 <= i < |nodes| && x in nodes[i].children ==> x in AllChildren(nodes)
    decreases |nodes|
  {
    if nodes != [] {
      var n := |nodes| - 1;
      ListedSomewhere(nodes[..n]);
      forall x, i | 0 <= i < |nodes| && x in nodes[i].children
        ensures x in AllChildren(nodes)
      {
        if i < n { assert nodes[..n][i] == nodes[i]; }
      }
    }
  }

  // ---------- Samples ----------

  /** The number of frames above and including a node, the root not counted. */
  function Depth(parents: Parents, root: Option<nat>, leaf: nat, k: nat): (d: nat)
    requires InRange(parents) && leaf < |parents|
    ensures k <= d
    ensures Up(parents, root, leaf, |parents|).None? && k <= |parents| ==> d <= |parents| && Up(parents, root, leaf, d).None?
    ensures forall j: nat :: k <= j < d ==> Up(parents, root, leaf, j).Some?
    decreases |parents| - k
  {
    if k >= |parents| || Up(parents, root, leaf, k).None? then k else Depth(parents, root, leaf, k + 1)
  }

  /** The chain of frames from below the root down to a node. */
  function StackOf(nodes: seq<Node>, parents: Parents, root: Option<nat>, leaf: nat): (s: seq<string>)
    requires InRange(parents) && leaf < |parents| == |nodes|
  {
    var d := Depth(parents, root, leaf, 0);
    seq(d, i requires 0 <= i < d => nodes[Up(parents, root, leaf, d - 1 - i).value].frame)
  }

  /** The frames met on the way up, and whether the way ended before the hop guard fired. */
  method Climb(nodes: seq<Node>, parents: Parents, root: Option<nat>, leaf: nat) returns (ended: bool, stack: seq<string>)
    requires InRange(parents) && leaf < |parents| == |nodes|
    ensures forall k :: 0 <= k < |stack| ==> Up(parents, root, leaf, k).Some? && stack[k] == nodes[Up(parents, root, leaf, k).value].frame
    ensures ended ==> Up(parents, root, leaf, |stack|).None?
    ensures !ended ==> |stack| > |nodes|
  {
    hide Up;
    var cur: Option<nat> := Some(leaf);
    var safety := 0;
    var maxDepth := |nodes| + 1;
    ended, stack := false, [];
    UpStarts(parents, root, leaf);
    while cur.Some? && cur != root
      invariant cur.Some? ==> cur.value < |nodes|
      invariant |stack| == safety <= maxDepth + 1
      invariant Up(parents, root, leaf, safety) == if cur == root then None else cur
      invariant forall k :: 0 <= k < safety ==> Up(parents, root, leaf, k).Some? && stack[k] == nodes[Up(parents, root, leaf, k).value].frame
      decreases maxDepth + 1 - safety
    {
      if safety > maxDepth {
        return;
      }
      UpSteps(parents, root, leaf, safety);
      stack := stack + [nodes[cur.value].frame];
      cur := parents[cur.value];
      safety := safety + 1;
    }
    ended := true;
  }

  lemma UpStarts(parents: Parents, root: Option<nat>, leaf: nat)
    requires InRange(parents) && leaf < |parents|
    ensures Up(parents, root, leaf, 0) == if Some(leaf) == root then None else Some(leaf)
  {
  }

  lemma UpSteps(parents: Parents, root: Option<nat>, leaf: nat, k: nat)
    requires InRange(parents) && leaf < |parents| && Up(parents, root, leaf, k).Some?
    ensures var p := parents[Up(parents, root, leaf, k).value];
            Up(parents, root, leaf, k + 1) == if p == root then None else p
  {
  }

  /** The hop guard fires exactly when the walk would never end. */
  method WalkUp(nodes: seq<Node>, parents: Parents, root: Option<nat>, leaf: nat) returns (ok: bool, stack: seq<string>)
    requires InRange(parents) && leaf < |parents| == |nodes|
    ensures ok <==> Ends(parents, root, leaf)
    ensures ok ==> stack == StackOf(nodes, parents, root, leaf)
  {
    hide Up;
    ok, stack := Climb(nodes, parents, root, leaf);
    if ok {
      WalkEnded(parents, root, leaf, |stack|);
      stack := seq(|stack|, i requires 0 <= i < |stack| => stack[|stack| - 1 - i]);
    } else {
      EndsSoonOrNever(parents, root, leaf);
      assert Up(parents, root, leaf, |nodes|).Some?;
    }
  }

  lemma WalkEnded(parents: Parents, root: Option<nat>, leaf: nat, n: nat)
    requires InRange(parents) && leaf < |parents|
    requires Up(parents, root, leaf, n).None? && forall k: nat :: k < n ==> Up(parents, root, leaf, k).Some?
    ensures Ends(parents, root, leaf) && Depth(parents, root, leaf, 0) == n
  {
    EndsSoonOrNever(parents, root, leaf);
    DepthIs(parents, root, leaf, n, 0);
  }

  lemma {:induction false} DepthIs(parents: Parents, root: Option<nat>, leaf: nat, n: nat, k: nat)
    requires InRange(parents) && leaf < |parents| && k <= n <= |parents|
    requires Up(parents, root, leaf, n).None? && forall j: nat :: j < n ==> Up(parents, root, leaf, j).Some?
    ensures Depth(parents, root, leaf, k) == n
    decreases n - k
  {
    if k < n { DepthIs(parents, root, leaf, n, k + 1); }
  }

  datatype Sampling = Sampling(id: int, delta: int)

  datatype Event = Event(ts: int, stack: seq<string>)

  function Elapsed(samples: seq<Sampling>): int {
    if samples == [] then 0 else Elapsed(samples[..|samples| - 1]) + samples[|samples| - 1].delta
  }

  ghost predicate SamplesOk(ids: Ids, parents: Parents, root: Option<nat>, samples: seq<Sampling>)
    requires InRange(parents) && forall id :: id in ids ==> ids[id] < |parents|
  {
    forall s :: s in samples ==> s.id in ids && Ends(parents, root, ids[s.id])
  }

  /** One event for every sample not at the root; time goes on across those that are. */
  function EventsOf(nodes: seq<Node>, ids: Ids, parents: Parents, root: Option<nat>, start: int, samples: seq<Sampling>): seq<Event>
    requires InRange(parents) && |parents| == |nodes| && forall s :: s in samples ==> s.id in ids && ids[s.id] < |nodes|
  {
    if samples == [] then []
    else
      var s, before := samples[|samples| - 1], samples[..|samples| - 1];
      EventsOf(nodes, ids, parents, root, start, before) +
      if Some(ids[s.id]) == root then [] else [Event((start + Elapsed(samples)) * 1000, StackOf(nodes, parents, root, ids[s.id]))]
  }

  /** The first node without a parent. */
  ghost predicate IsRoot(parents: Parents, root: Option<nat>) {
    match root
    case None => forall i :: 0 <= i < |parents| ==> parents[i].Some?
    case Some(r) => r < |parents| && parents[r].None? && forall i :: 0 <= i < r ==> parents[i].Some?
  }

  method FindRoot(parents: Parents) returns (root: Option<nat>)
    ensures IsRoot(parents, root)
  {
    for i := 0 to |parents|
      invariant forall k :: 0 <= k < i ==> parents[k].Some?
    {
      if parents[i].None? {
        return Some(i);
      }
    }
    return None;
  }

  method ConvertSamples(nodes: seq<Node>, ids: Ids, parents: Parents, root: Option<nat>, start: int, samples: seq<Sampling>)
    returns (error: Option<Error>, events: seq<Event>)
    requires InRange(parents) && |parents| == |nodes| && forall id :: id in ids ==> ids[id] < |nodes|
    ensures error.None? <==> SamplesOk(ids, parents, root, samples)
    ensures error != Some(DuplicateId) && error != Some(BadChild)
    ensures error == Some(UnknownSample) <==> exists i :: FirstBad(ids, parents, root, samples, i) && samples[i].id !in ids
    ensures error == Some(Loop) <==> exists i :: FirstBad(ids, parents, root, samples, i) && samples[i].id in ids
    ensures error.None? ==> events == EventsOf(nodes, ids, parents, root, start, samples)
  {
    hide InRange, Ends;
    events, error := [], None;
    var cumUs := 0;
    for si := 0 to |samples|
      invariant SamplesOk(ids, parents, root, samples[..si]) && cumUs == Elapsed(samples[..si])
      invariant events == EventsOf(nodes, ids, parents, root, start, samples[..si])
    {
      var s := samples[si];
      assert samples[..si + 1][..si] == samples[..si] && s in samples;
      cumUs := cumUs + s.delta;
      if s.id !in ids {
        OneFirstBad(ids, parents, root, samples, si);
        return Some(UnknownSample), events;
      }
      var ok, stack := WalkUp(nodes, parents, root, ids[s.id]);
      if !ok {
        OneFirstBad(ids, parents, root, samples, si);
        return Some(Loop), events;
      }
      AtRootOnly(nodes, parents, root, ids[s.id]);
      if stack != [] {
        events := events + [Event((start + cumUs) * 1000, stack)];
      }
    }
    assert samples[..|samples|] == samples;
    NoneFirstBad(ids, parents, root, samples);
  }

  /** The first sample that is refused. */
  ghost predicate FirstBad(ids: Ids, parents: Parents, root: Option<nat>, samples: seq<Sampling>, i: int)
    requires InRange(parents) && forall id :: id in ids ==> ids[id] < |parents|
  {
    0 <= i < |samples| && SamplesOk(ids, parents, root, samples[..i]) &&
    !(samples[i].id in ids && Ends(parents, root, ids[samples[i].id]))
  }

  lemma OneFirstBad(ids: Ids, parents: Parents, root: Option<nat>, samples: seq<Sampling>, i: nat)
    requires InRange(parents) && (forall id :: id in ids ==> ids[id] < |parents|) && FirstBad(ids, parents, root, samples, i)
    ensures forall j :: FirstBad(ids, parents, root, samples, j) <==> j == i
  {
    hide Ends;
    forall j
      ensures FirstBad(ids, parents, root, samples, j) ==> j == i
    {
      if 0 <= j < i {
        FirstBadBefore(ids, parents, root, samples, j, i);
      }
      if i < j < |samples| {
        FirstBadBefore(ids, parents, root, samples, i, j);
      }
    }
  }

  lemma FirstBadBefore(ids: Ids, parents: Parents, root: Option<nat>, samples: seq<Sampling>, i: nat, j: nat)
    requires InRange(parents) && (forall id :: id in ids ==> ids[id] < |parents|) && i < j < |samples|
    ensures FirstBad(ids, parents, root, samples, i) ==> !SamplesOk(ids, parents, root, samples[..j])
  {
    hide Ends;
    assert samples[..j][i] == samples[i];
  }

  lemma NoneFirstBad(ids: Ids, parents: Parents, root: Option<nat>, samples: seq<Sampling>)
    requires InRange(parents) && (forall id :: id in ids ==> ids[id] < |parents|) && SamplesOk(ids, parents, root, samples)
    ensures forall j :: !FirstBad(ids, parents, root, samples, j)
  {
    hide Ends;
    assert forall j :: 0 <= j < |samples| ==> samples[j] in samples;
  }

  lemma AtRootOnly(nodes: seq<Node>, parents: Parents, root: Option<nat>, leaf: nat)
    requires InRange(parents) && leaf < |parents| == |nodes|
    ensures StackOf(nodes, parents, root, leaf) == [] <==> Some(leaf) == root
  {
    var d := Depth(parents, root, leaf, 0);
    assert |StackOf(nodes, parents, root, leaf)| == d;
  }

  /** The whole conversion: a profile is refused exactly for a repeated identifier, a child unknown or
      listed twice, a sample of an unknown node, or one whose parents form a loop. */
  method ConvertProfile(nodes: seq<Node>, start: int, samples: seq<Sampling>)
    returns (error: Option<Error>, events: seq<Event>, ghost ids: Ids, ghost parents: Parents, ghost root: Option<nat>)
    ensures error == Some(DuplicateId) <==> !DistinctIds(nodes)
    ensures error != Some(DuplicateId) ==> Indexes(nodes, ids) && (error == Some(BadChild) <==> !TreeOk(ids, AllChildren(nodes)))
    ensures error != Some(DuplicateId) && error != Some(BadChild) ==>
              && AreParents(nodes, parents) && InRange(parents) && IsRoot(parents, root)
              && (error.None? <==> SamplesOk(ids, parents, root, samples))
              && (error == Some(UnknownSample) <==> exists i :: FirstBad(ids, parents, root, samples, i) && samples[i].id !in ids)
              && (error == Some(Loop) <==> exists i :: FirstBad(ids, parents, root, samples, i) && samples[i].id in ids)
              && (error.None? ==> events == EventsOf(nodes, ids, parents, root, start, samples))
  {
    events, ids, parents, root := [], map[], [], None;
    var distinct, index := IndexIds(nodes);
    if !distinct {
      return Some(DuplicateId), [], ids, parents, root;
    }
    var tree, above := BuildParents(nodes, index);
    if !tree {
      return Some(BadChild), [], index, parents, root;
    }
    var top := FindRoot(above);
    error, events := ConvertSamples(nodes, index, above, top, start, samples);
    ids, parents, root := index, above, top;
  }
}
