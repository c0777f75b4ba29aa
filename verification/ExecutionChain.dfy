/** Chains of recorded commands. */
module ExecutionChain {
  // Recorded commands form one chain, and how long such a chain may be; and why the verdict on deep
  // graphs depends on the order of the roots.

  import opened Digests
  import opened Options
  import opened EvidenceGraph

  // ---------- Chains ----------

  predicate Distinct<Id(==)>(ids: seq<Id>) {
    forall i, j :: 0 <= i < j < |ids| ==> ids[i] != ids[j]
  }

  /** Every record has the one before it as its only parent. */
  function ParentsAt<Id>(ids: seq<Id>, k: nat): seq<Id>
    requires k < |ids|
  {
    if k == 0 then [] else [ids[k - 1]]
  }

  function ChainNodes<Id>(ids: seq<Id>): (ns: seq<Node<Id>>)
    ensures |ns| == |ids|
  {
    seq(|ids|, k requires 0 <= k < |ids| => Node(ids[k], ParentsAt(ids, k), true))
  }

  function ChainGraph<Id(==)>(ids: seq<Id>): Graph<Id>
    decreases |ids|
  {
    if ids == [] then map[]
    else var n := |ids| - 1; ChainGraph(ids[..n])[ids[n] := ParentsAt(ids, n)]
  }

  lemma OneMoreNode<Id>(ns: seq<Node<Id>>, n: Node<Id>)
    requires IndexNodes(ns).Indexed? && n.isSealed && n.id !in IndexNodes(ns).graph
    ensures IndexNodes(ns + [n]) == Indexed(IndexNodes(ns).graph[n.id := n.parents])
  {
    assert (ns + [n])[..|ns|] == ns;
  }

  lemma ChainNodesSplit<Id>(ids: seq<Id>, n: nat)
    requires |ids| == n + 1
    ensures ChainNodes(ids) == ChainNodes(ids[..n]) + [Node(ids[n], ParentsAt(ids, n), true)]
  {
    assert forall k :: 0 <= k < n ==> ParentsAt(ids[..n], k) == ParentsAt(ids, k);
  }

  lemma {:induction false} OutsideChain<Id>(ids: seq<Id>, x: Id)
    requires forall i :: 0 <= i < |ids| ==> ids[i] != x
    ensures x !in ChainGraph(ids)
    decreases |ids|
  {
    if ids != [] { OutsideChain(ids[..|ids| - 1], x); }
  }

  lemma {:induction false} ChainIsIndexed<Id>(ids: seq<Id>)
    requires Distinct(ids)
    ensures IndexNodes(ChainNodes(ids)) == Indexed(ChainGraph(ids)) && |ChainGraph(ids)| == |ids|
    decreases |ids|
  {
    if ids != [] {
      var n := |ids| - 1;
      ChainIsIndexed(ids[..n]);
      ChainNodesSplit(ids, n);
      OutsideChain(ids[..n], ids[n]);
      OneMoreNode(ChainNodes(ids[..n]), Node(ids[n], ParentsAt(ids, n), true));
      OneMoreKey(ChainGraph(ids[..n]), ids[n], ParentsAt(ids, n));
    }
  }

  lemma OneMoreKey<K, V>(m: map<K, V>, k: K, v: V)
    requires k !in m
    ensures |m[k := v]| == |m| + 1
  {
    assert m[k := v].Keys == m.Keys + {k};
    assert |m[k := v]| == |m[k := v].Keys| && |m| == |m.Keys|;
  }

  lemma {:induction false} ChainLookup<Id>(ids: seq<Id>, k: nat)
    requires Distinct(ids) && k < |ids|
    ensures ids[k] in ChainGraph(ids) && ChainGraph(ids)[ids[k]] == ParentsAt(ids, k)
    decreases |ids|
  {
    var n := |ids| - 1;
    if k < n {
      ChainLookup(ids[..n], k);
      assert ParentsAt(ids[..n], k) == ParentsAt(ids, k);
    }
  }

  // ---------- Walking a chain ----------

  /** The state behind a walk from the `k`-th record: it and all before it are finished. */
  function Painted<Id(==)>(ids: seq<Id>, k: nat, st: State<Id>): State<Id>
    requires k < |ids|
  {
    (if k == 0 then st else Painted(ids, k - 1, st))[ids[k] := Black]
  }

  lemma {:induction false} PaintedOver<Id>(ids: seq<Id>, k: nat, st: State<Id>, x: Id, c: Color)
    requires k < |ids|
    ensures Painted(ids, k, st[x := c])[x := Black] == Painted(ids, k, st)[x := Black]
  {
    if k > 0 {
      PaintedOver(ids, k - 1, st, x, c);
      Swap(Painted(ids, k - 1, st[x := c]), x, ids[k]);
      Swap(Painted(ids, k - 1, st), x, ids[k]);
    } else {
      Swap(st[x := c], x, ids[0]);
      Swap(st, x, ids[0]);
      assert st[x := c][x := Black] == st[x := Black];
    }
  }

  lemma Swap<Id>(st: State<Id>, x: Id, y: Id)
    ensures st[x := Black][y := Black] == st[y := Black][x := Black]
  {
  }

  /** A walk down a chain fails exactly when it would have to go deeper than the bound. */
  lemma {:induction false} ChainWalk<Id>(ids: seq<Id>, k: nat, depth: nat, st: State<Id>)
    requires Distinct(ids) && k < |ids| && forall j :: 0 <= j <= k ==> ids[j] !in st
    ensures Visit(ChainGraph(ids), ids[k], depth, st) ==
            if depth + k > MAX_DEPTH then Fail(TooDeep) else Go(Painted(ids, k, st))
    decreases k
  {
    if depth <= MAX_DEPTH {
      var inside := st[ids[k] := Gray];
      EntersNode(ids, k, depth, st);
      if k == 0 {
        assert inside[ids[0] := Black] == st[ids[0] := Black];
      } else {
        ChainWalk(ids, k - 1, depth + 1, inside);
        PaintedOver(ids, k - 1, st, ids[k], Gray);
      }
    }
  }

  lemma EntersNode<Id>(ids: seq<Id>, k: nat, depth: nat, st: State<Id>)
    requires Distinct(ids) && k < |ids| && ids[k] !in st && depth <= MAX_DEPTH
    ensures var g, inside := ChainGraph(ids), st[ids[k] := Gray];
            var w := if k == 0 then Go(inside) else Visit(g, ids[k - 1], depth + 1, inside);
            Visit(g, ids[k], depth, st) == if w.Go? then Go(w.state[ids[k] := Black]) else w
  {
    hide ChainGraph;
    ChainLookup(ids, k);
    var g, inside := ChainGraph(ids), st[ids[k] := Gray];
    if k == 0 {
      assert VisitAll(g, [], depth + 1, inside) == Go(inside);
    } else {
      OneParent(g, ids[k - 1], depth + 1, inside);
    }
  }

  lemma OneParent<Id>(g: Graph<Id>, id: Id, depth: nat, st: State<Id>)
    ensures VisitAll(g, [id], depth, st) == Visit(g, id, depth, st)
  {
    var w := Visit(g, id, depth, st);
    if w.Go? {
      assert VisitAll(g, [id][1..], depth, w.state) == w;
    }
  }

  lemma {:induction false} PaintedSize<Id>(ids: seq<Id>, k: nat)
    requires Distinct(ids) && k < |ids|
    ensures |Painted(ids, k, map[])| == k + 1
  {
    if k > 0 {
      PaintedSize(ids, k - 1);
      NotPainted(ids, k - 1, ids[k]);
      OneMoreKey(Painted(ids, k - 1, map[]), ids[k], Black);
    } else {
      OneMoreKey(map[], ids[0], Black);
    }
  }

  lemma {:induction false} NotPainted<Id>(ids: seq<Id>, k: nat, x: Id)
    requires k < |ids| && forall j :: 0 <= j <= k ==> ids[j] != x
    ensures x !in Painted(ids, k, map[])
  {
    if k > 0 { NotPainted(ids, k - 1, x); }
  }

  /** A chain with its last record as root is accepted exactly when it is not empty and has at most 257
      records. */
  lemma ChainAccepted<Id>(ids: seq<Id>)
    requires Distinct(ids) && ids != []
    ensures GraphValid(Manifest(true, ChainNodes(ids), [ids[|ids| - 1]])) <==> |ids| <= MAX_DEPTH + 1
  {
    hide Visit, VisitAll, IndexNodes, Distinct, ChainGraph, Painted;
    var k := |ids| - 1;
    ChainIsIndexed(ids);
    ChainLookup(ids, k);
    ChainWalk(ids, k, 0, map[]);
    OneParent(ChainGraph(ids), ids[k], 0, map[]);
    PaintedSize(ids, k);
    assert [ids[k]][1..] == [] && RootsOk(ChainGraph(ids), [ids[k]]);
  }

  // ---------- Order matters in deep graphs ----------

  /** A chain of 258 records whose last two are both roots: the one deeper down must come first. */
  lemma OrderMatters<Id>(ids: seq<Id>)
    requires Distinct(ids) && |ids| == MAX_DEPTH + 2
    ensures var a, b := ids[MAX_DEPTH], ids[MAX_DEPTH + 1];
            GraphValid(Manifest(true, ChainNodes(ids), [a, b])) && !GraphValid(Manifest(true, ChainNodes(ids), [b, a]))
  {
    hide Visit, VisitAll, IndexNodes, ChainGraph, Painted;
    var a, b, g := ids[MAX_DEPTH], ids[MAX_DEPTH + 1], ChainGraph(ids);
    ChainIsIndexed(ids);
    ChainLookup(ids, MAX_DEPTH);
    ChainLookup(ids, MAX_DEPTH + 1);
    ChainWalk(ids, MAX_DEPTH, 0, map[]);
    ChainWalk(ids, MAX_DEPTH + 1, 0, map[]);
    TwoRoots(g, a, b);
    TwoRoots(g, b, a);
    SecondRootIsShort(ids);
    assert [b, a][1..] == [a] && [a, b][1..] == [b] && [a][1..] == [] && [b][1..] == [];
    assert a != b by { assert ids[MAX_DEPTH] != ids[MAX_DEPTH + 1]; }
    assert RootsOk(g, [a]) && RootsOk(g, [b]);
    assert RootsOk(g, [a, b]) && RootsOk(g, [b, a]);
  }

  lemma TwoRoots<Id>(g: Graph<Id>, x: Id, y: Id)
    ensures var w := Visit(g, x, 0, map[]);
            VisitAll(g, [x, y], 0, map[]) == if w.Go? then Visit(g, y, 0, w.state) else w
  {
    hide Visit;
    var w := Visit(g, x, 0, map[]);
    assert [x, y][1..] == [y];
    if w.Go? { OneParent(g, y, 0, w.state); }
  }

  lemma SecondRootIsShort<Id>(ids: seq<Id>)
    requires Distinct(ids) && |ids| == MAX_DEPTH + 2
    ensures var st := Painted(ids, MAX_DEPTH, map[]);
            Visit(ChainGraph(ids), ids[MAX_DEPTH + 1], 0, st) == Go(Painted(ids, MAX_DEPTH + 1, map[]))
    ensures |Painted(ids, MAX_DEPTH + 1, map[])| == |ids|
  {
    hide ChainGraph;
    var k := MAX_DEPTH + 1;
    var st := Painted(ids, MAX_DEPTH, map[]);
    NotPainted(ids, MAX_DEPTH, ids[k]);
    EntersNode(ids, k, 0, st);
    PaintedSize(ids, k);
    var inside := st[ids[k] := Gray];
    assert inside[ids[MAX_DEPTH]] == Black;
    assert Visit(ChainGraph(ids), ids[MAX_DEPTH], 1, inside) == Go(inside);
    assert inside[ids[k] := Black] == st[ids[k] := Black];
  }

  // ---------- The recorder ----------

  /** Each identifier is the digest of its record, whose parent is the one before. */
  ghost predicate Recorded<P, Id>(digest: ((P, seq<Id>)) -> Option<Id>, commands: seq<P>, ids: seq<Id>) {
    |commands| == |ids| && forall k :: 0 <= k < |ids| ==> RecordedAt(digest, commands, ids, k)
  }

  ghost predicate RecordedAt<P, Id>(digest: ((P, seq<Id>)) -> Option<Id>, commands: seq<P>, ids: seq<Id>, k: nat)
    requires k < |commands| == |ids|
  {
    digest((commands[k], ParentsAt(ids, k))) == Some(ids[k])
  }

  lemma RecordOf<P(!new), Id(!new)>(inverse: Id -> (P, seq<Id>), digest: ((P, seq<Id>)) -> Option<Id>, commands: seq<P>, ids: seq<Id>, k: nat)
    requires Inverts(inverse, digest) && Recorded(digest, commands, ids) && k < |ids|
    ensures inverse(ids[k]).1 == ParentsAt(ids, k)
  {
    assert RecordedAt(digest, commands, ids, k);
  }

  /** Even the same command run twice gets two identifiers, since its parents differ. */
  lemma {:induction false} RecordsDiffer<P(!new), Id(!new)>(digest: ((P, seq<Id>)) -> Option<Id>, commands: seq<P>, ids: seq<Id>, i: nat, j: nat)
    requires Injective(digest) && Recorded(digest, commands, ids) && |commands| == |ids| && i < j < |ids|
    ensures ids[i] != ids[j]
  {
    hide Recorded, Inverts;
    var inverse :| Inverts(inverse, digest);
    RecordOf(inverse, digest, commands, ids, i);
    RecordOf(inverse, digest, commands, ids, j);
    if i > 0 {
      RecordsDiffer(digest, commands, ids, i - 1, j - 1);
      assert ParentsAt(ids, i)[0] != ParentsAt(ids, j)[0];
    } else {
      assert |ParentsAt(ids, i)| != |ParentsAt(ids, j)|;
    }
  }

  lemma RecordedGrows<P, Id>(digest: ((P, seq<Id>)) -> Option<Id>, commands: seq<P>, ids: seq<Id>, command: P, id: Id)
    requires Recorded(digest, commands, ids)
    requires digest((command, if ids == [] then [] else [ids[|ids| - 1]])) == Some(id)
    ensures Recorded(digest, commands + [command], ids + [id])
    ensures ChainNodes(ids + [id]) == ChainNodes(ids) + [Node(id, if ids == [] then [] else [ids[|ids| - 1]], true)]
  {
    var more := ids + [id];
    ChainNodesSplit(more, |ids|);
    assert more[..|ids|] == ids;
    forall k | 0 <= k < |more|
      ensures RecordedAt(digest, commands + [command], more, k)
    {
      if k < |ids| {
        assert RecordedAt(digest, commands, ids, k);
        assert ParentsAt(more, k) == ParentsAt(ids, k);
      }
    }
  }

  lemma RecordsAreDistinct<P(!new), Id(!new)>(digest: ((P, seq<Id>)) -> Option<Id>, commands: seq<P>, ids: seq<Id>)
    requires Injective(digest) && Recorded(digest, commands, ids)
    ensures Distinct(ids)
  {
    forall i, j | 0 <= i < j < |ids|
      ensures ids[i] != ids[j]
    {
      RecordsDiffer(digest, commands, ids, i, j);
    }
  }

  /** The part of the recorder that runs under its lock. */
  class ExecutionRecorder<P(!new), Id(!new, ==)> {
    const digest: ((P, seq<Id>)) -> Option<Id>
    var nodes: seq<Node<Id>>
    var roots: seq<Id>
    var diagnostics: seq<string>
    ghost var commands: seq<P>
    ghost var ids: seq<Id>

    ghost predicate Valid()
      reads this
    {
      && Recorded(digest, commands, ids) && nodes == ChainNodes(ids)
      && roots == if ids == [] then [] else [ids[|ids| - 1]]
    }

    constructor (digest: ((P, seq<Id>)) -> Option<Id>)
      ensures Valid() && commands == [] && this.digest == digest
    {
      this.digest, nodes, roots, diagnostics, commands, ids := digest, [], [], [], [], [];
    }

    /** A command that can be encoded extends the chain; any other one only leaves a note. */
    method Record(command: P, errors: seq<string>)
      requires Valid()
      modifies this
      ensures Valid()
      ensures var id := digest((command, old(roots)));
              if id.Some? then commands == old(commands) + [command] && ids == old(ids) + [id.value]
              else commands == old(commands) && ids == old(ids)
      ensures old(diagnostics) <= diagnostics
    {
      hide Recorded, ChainNodes;
      var parents := roots;
      var id := digest((command, parents));
      if id.None? {
        diagnostics := diagnostics + ["cannot encode command observation"];
      } else {
        RecordedGrows(digest, commands, ids, command, id.value);
        nodes := nodes + [Node(id.value, parents, true)];
        roots := [id.value];
        ids, commands := ids + [id.value], commands + [command];
      }
      diagnostics := diagnostics + errors;
    }

    /** Writing the manifest starts with the graph check. */
    method Flush() returns (ok: bool)
      requires Valid()
      ensures ok == GraphValid(Manifest(true, nodes, roots))
      ensures Injective(digest) ==> (ok <==> 1 <= |commands| <= MAX_DEPTH + 1)
    {
      hide ChainNodes, Injective, Distinct, VisitAll, IndexNodes;
      var error;
      ok, error := CheckGraph(Manifest(true, nodes, roots));
      if Injective(digest) {
        RecordsAreDistinct(digest, commands, ids);
        if ids != [] { ChainAccepted(ids); }
      }
    }
  }
}
