/** The evidence graph check. */
module EvidenceGraph {
  // The evidence graph check: a three-colour depth-first walk along parents, with a depth bound that is
  // tested before the memory of finished nodes.

  /** A record as the graph check sees it: `sealed` says that its fields are valid and its identifier
      is the digest of its contents. */
  datatype Node<Id(==)> = Node(id: Id, parents: seq<Id>, isSealed: bool)

  datatype Manifest<Id(==)> = Manifest(versionOk: bool, nodes: seq<Node<Id>>, roots: seq<Id>)

  datatype Error = BadVersion | Empty | TooMany | BadRecord | DuplicateNode | BadRoot | TooDeep | Cycle | MissingParent | Unreferenced

  datatype Color = Gray | Black

  type Graph<Id(==)> = map<Id, seq<Id>>

  type State<Id(==)> = map<Id, Color>

  const MAX_DEPTH := 256

  const MAX_NODES := 4096

  // ---------- The walk ----------

  datatype Walk<Id(==)> = Fail(error: Error) | Go(state: State<Id>)

  function Fuel(depth: nat): nat { if depth > MAX_DEPTH then 0 else MAX_DEPTH + 1 - depth }

  function Visit<Id(==)>(g: Graph<Id>, id: Id, depth: nat, st: State<Id>): Walk<Id>
    decreases Fuel(depth), 1, 0
  {
    if depth > MAX_DEPTH then Fail(TooDeep)
    else if id in st then (if st[id] == Gray then Fail(Cycle) else Go(st))
    else if id !in g then Fail(MissingParent)
    else
      var w := VisitAll(g, g[id], depth + 1, st[id := Gray]);
      if w.Go? then Go(w.state[id := Black]) else w
  }

  function VisitAll<Id(==)>(g: Graph<Id>, ids: seq<Id>, depth: nat, st: State<Id>): Walk<Id>
    decreases Fuel(depth), 2, |ids|
  {
    if ids == [] then Go(st)
    else
      var w := Visit(g, ids[0], depth, st);
      if w.Go? then VisitAll(g, ids[1..], depth, w.state) else w
  }

  // ---------- The check ----------

  datatype Index<Id(==)> = Bad(error: Error) | Indexed(graph: Graph<Id>)

  function IndexNodes<Id(==)>(nodes: seq<Node<Id>>): Index<Id> {
    if nodes == [] then Indexed(map[])
    else
      var n := nodes[|nodes| - 1];
      var before := IndexNodes(nodes[..|nodes| - 1]);
      if before.Bad? then before
      else if !n.isSealed then Bad(BadRecord)
      else if n.id in before.graph then Bad(DuplicateNode)
      else Indexed(before.graph[n.id := n.parents])
  }

  predicate RootsOk<Id(==)>(g: Graph<Id>, roots: seq<Id>) {
    roots == [] || (roots[0] in g && roots[0] !in roots[1..] && RootsOk(g, roots[1..]))
  }

  predicate GraphValid<Id(==)>(m: Manifest<Id>) {
    m.versionOk && m.nodes != [] && m.roots != [] && |m.nodes| <= MAX_NODES &&
    var index := IndexNodes(m.nodes);
    index.Indexed? && RootsOk(index.graph, m.roots) &&
    var w := VisitAll(index.graph, m.roots, 0, map[]);
    w.Go? && |w.state| == |index.graph|
  }

  class Checker<Id(==)> {
    const nodes: Graph<Id>
    var state: State<Id>
    var error: Error

    constructor (nodes: Graph<Id>)
      ensures this.nodes == nodes && state == map[]
    {
      this.nodes, state, error := nodes, map[], Empty;
    }

    method VisitNode(id: Id, depth: nat) returns (ok: bool)
      modifies this
      ensures match Visit(nodes, id, depth, old(state))
              case Fail(e) => !ok && error == e
              case Go(s) => ok && state == s
      decreases Fuel(depth), 1
    {
      if depth > MAX_DEPTH {
        error := TooDeep;
        return false;
      }
      if id in state {
        if state[id] == Gray {
          error := Cycle;
        }
        return state[id] == Black;
      }
      if id !in nodes {
        error := MissingParent;
        return false;
      }
      state := state[id := Gray];
      ok := VisitEach(nodes[id], depth + 1);
      if ok {
        state := state[id := Black];
      }
    }

    method VisitEach(ids: seq<Id>, depth: nat) returns (ok: bool)
      modifies this
      ensures match VisitAll(nodes, ids, depth, old(state))
              case Fail(e) => !ok && error == e
              case Go(s) => ok && state == s
      decreases Fuel(depth), 2
    {
      ok := true;
      var i := 0;
      while ok && i < |ids|
        invariant i <= |ids|
        invariant ok ==> VisitAll(nodes, ids[i..], depth, state) == VisitAll(nodes, ids, depth, old(state))
        invariant !ok ==> VisitAll(nodes, ids, depth, old(state)) == Fail(error)
        decreases |ids| - i, ok
      {
        assert ids[i..][1..] == ids[i + 1..];
        ok := VisitNode(ids[i], depth);
        i := i + 1;
      }
    }
  }

  method CheckGraph<Id(==)>(m: Manifest<Id>) returns (ok: bool, error: Error)
    ensures ok == GraphValid(m)
  {
    error := Empty;
    if !m.versionOk { return false, BadVersion; }
    if m.nodes == [] || m.roots == [] { return false, Empty; }
    if |m.nodes| > MAX_NODES { return false, TooMany; }
    var index := BuildIndex(m.nodes);
    if index.Bad? { return false, index.error; }
    var rootsOk := CheckRoots(index.graph, m.roots);
    if !rootsOk { return false, BadRoot; }
    var c := new Checker(index.graph);
    ok := c.VisitEach(m.roots, 0);
    error := c.error;
    if ok && |c.state| != |index.graph| {
      ok, error := false, Unreferenced;
    }
  }

  method BuildIndex<Id(==)>(nodes: seq<Node<Id>>) returns (index: Index<Id>)
    ensures index == IndexNodes(nodes)
  {
    var g: Graph<Id> := map[];
    var i := 0;
    index := Indexed(g);
    while index.Indexed? && i < |nodes|
      invariant i <= |nodes| && (index.Indexed? ==> index == Indexed(g))
      invariant index == IndexNodes(nodes[..i])
    {
      assert nodes[..i + 1][..i] == nodes[..i];
      if !nodes[i].isSealed {
        index := Bad(BadRecord);
      } else if nodes[i].id in g {
        index := Bad(DuplicateNode);
      } else {
        g := g[nodes[i].id := nodes[i].parents];
        index := Indexed(g);
      }
      i := i + 1;
    }
    if index.Bad? { BadStaysBad(nodes, i); }
    assert nodes[..|nodes|] == nodes;
  }

  lemma {:induction false} BadStaysBad<Id>(nodes: seq<Node<Id>>, i: nat)
    requires i <= |nodes| && IndexNodes(nodes[..i]).Bad?
    ensures IndexNodes(nodes) == IndexNodes(nodes[..i])
    decreases |nodes|
  {
    if i < |nodes| {
      assert nodes[..|nodes| - 1][..i] == nodes[..i];
      BadStaysBad(nodes[..|nodes| - 1], i);
    } else {
      assert nodes[..i] == nodes;
    }
  }

  method CheckRoots<Id(==)>(g: Graph<Id>, roots: seq<Id>) returns (ok: bool)
    ensures ok == RootsOk(g, roots)
  {
    var seen: set<Id> := {};
    ok := true;
    var i := 0;
    while ok && i < |roots|
      invariant i <= |roots| && (forall r :: r in seen <==> r in roots[..i])
      invariant ok <==> (forall j :: 0 <= j < i ==> roots[j] in g && roots[j] !in roots[..j])
    {
      ok := roots[i] in g && roots[i] !in seen;
      seen := seen + {roots[i]};
      assert roots[..i + 1] == roots[..i] + [roots[i]];
      i := i + 1;
    }
    RootsAreDistinct(g, roots);
  }

  lemma {:induction false} RootsAreDistinct<Id>(g: Graph<Id>, roots: seq<Id>)
    ensures RootsOk(g, roots) <==> forall j :: 0 <= j < |roots| ==> roots[j] in g && roots[j] !in roots[..j]
  {
    if roots != [] {
      var more := roots[1..];
      RootsAreDistinct(g, more);
      assert forall j :: 0 < j < |roots| ==> roots[..j] == [roots[0]] + more[..j - 1] && roots[j] == more[j - 1];
      if RootsOk(g, roots) {
        assert forall j :: 0 <= j < |more| ==> more[j] in more;
      } else if roots[0] in more {
        var k :| 0 <= k < |more| && more[k] == roots[0];
        assert roots[k + 1] in roots[..k + 1];
      } else if !RootsOk(g, more) {
        var j :| 0 <= j < |more| && !(more[j] in g && more[j] !in more[..j]);
        assert roots[j + 1] == more[j];
      }
    }
  }
}
