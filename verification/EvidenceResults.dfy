/** What the check establishes. */
module EvidenceResults {
  // What the graph check establishes, when it accepts everything it should, and where its verdict
  // depends on the order of the roots.

  import opened EvidenceGraph

  // ---------- Good graphs ----------

  /** A chain from a record to a parent, to a parent of that, and so on. */
  ghost predicate Path<Id>(g: Graph<Id>, p: seq<Id>) {
    p != [] && forall i :: 0 <= i < |p| - 1 ==> p[i] in g && p[i + 1] in g[p[i]]
  }

  ghost predicate Resolves<Id>(g: Graph<Id>) {
    forall x, y :: x in g && y in g[x] ==> y in g
  }

  ghost predicate Acyclic<Id(!new)>(g: Graph<Id>) {
    forall p :: Path(g, p) && |p| > 1 ==> p[0] != p[|p| - 1]
  }

  ghost predicate Leads<Id>(g: Graph<Id>, p: seq<Id>, roots: seq<Id>, x: Id) {
    Path(g, p) && p[0] in roots && p[|p| - 1] == x
  }

  ghost predicate Reaches<Id(!new)>(g: Graph<Id>, roots: seq<Id>, x: Id) {
    exists p :: Leads(g, p, roots, x)
  }

  /** All parents are there, nothing depends on itself, and everything is reached from a root. */
  ghost predicate Good<Id(!new)>(g: Graph<Id>, roots: seq<Id>) {
    Resolves(g) && Acyclic(g) && forall x :: x in g ==> Reaches(g, roots, x)
  }

  /** No chain from a root has more than 256 links. */
  ghost predicate Shallow<Id(!new)>(g: Graph<Id>, roots: seq<Id>) {
    forall p :: Path(g, p) && p[0] in roots ==> |p| - 1 <= MAX_DEPTH
  }

  // ---------- What a finished walk has seen ----------

  function Blacks<Id>(st: State<Id>): set<Id> { set x | x in st && st[x] == Black }

  function Grays<Id>(st: State<Id>): set<Id> { set x | x in st && st[x] == Gray }

  /** Finished nodes can be numbered so that parents come before their children. */
  ghost predicate Ranks<Id>(g: Graph<Id>, blacks: set<Id>, rank: map<Id, nat>) {
    forall x :: x in blacks ==> x in g && x in rank && rank[x] < |blacks| && forall y :: y in g[x] ==> y in blacks && y in rank && rank[y] < rank[x]
  }

  ghost predicate Ranked<Id(!new)>(g: Graph<Id>, blacks: set<Id>) {
    exists rank :: Ranks(g, blacks, rank)
  }

  lemma RankOneMore<Id(!new)>(g: Graph<Id>, blacks: set<Id>, x: Id)
    requires Ranked(g, blacks) && x !in blacks && x in g && forall y :: y in g[x] ==> y in blacks
    ensures Ranked(g, blacks + {x})
  {
    var rank :| Ranks(g, blacks, rank);
    assert Ranks(g, blacks + {x}, rank[x := |blacks|]);
  }

  /** A walk adds finished nodes below where it started, and leaves the nodes it is inside of alone. */
  ghost predicate Advances<Id(!new)>(g: Graph<Id>, from: seq<Id>, st: State<Id>, after: State<Id>) {
    && Grays(after) == Grays(st) && Blacks(st) <= Blacks(after) && Ranked(g, Blacks(after))
    && (forall x :: x in from ==> x in Blacks(after))
    && (forall x :: x in Blacks(after) && x !in Blacks(st) ==> Reaches(g, from, x))
  }

  lemma ReachesBelow<Id(!new)>(g: Graph<Id>, id: Id, x: Id)
    requires id in g && Reaches(g, g[id], x)
    ensures Reaches(g, [id], x)
  {
    var p :| Leads(g, p, g[id], x);
    assert Leads(g, [id] + p, [id], x);
  }

  lemma ReachesMore<Id(!new)>(g: Graph<Id>, a: seq<Id>, b: seq<Id>, x: Id)
    requires Reaches(g, a, x) && forall y :: y in a ==> y in b
    ensures Reaches(g, b, x)
  {
    var p :| Leads(g, p, a, x);
    assert Leads(g, p, b, x);
  }

  lemma {:induction false} VisitAdvances<Id(!new)>(g: Graph<Id>, id: Id, depth: nat, st: State<Id>)
    requires Visit(g, id, depth, st).Go? && Ranked(g, Blacks(st))
    ensures Advances(g, [id], st, Visit(g, id, depth, st).state)
    decreases Fuel(depth), 1, 0
  {
    if id !in st {
      var inside := st[id := Gray];
      Enters(st, id);
      VisitAllAdvances(g, g[id], depth + 1, inside);
      Finishes(g, id, st, VisitAll(g, g[id], depth + 1, inside).state);
    } else {
      assert id in Blacks(st);
    }
  }

  lemma Enters<Id>(st: State<Id>, id: Id)
    requires id !in st
    ensures Blacks(st[id := Gray]) == Blacks(st) && Grays(st[id := Gray]) == Grays(st) + {id} && id !in Grays(st)
  {
  }

  lemma Leaves<Id>(st: State<Id>, id: Id)
    requires id in Grays(st)
    ensures Blacks(st[id := Black]) == Blacks(st) + {id} && Grays(st[id := Black]) == Grays(st) - {id} && id !in Blacks(st)
  {
  }

  lemma Finishes<Id(!new)>(g: Graph<Id>, id: Id, st: State<Id>, done: State<Id>)
    requires id !in st && id in g && Advances(g, g[id], st[id := Gray], done)
    ensures Advances(g, [id], st, done[id := Black])
  {
    hide Blacks, Grays;
    Enters(st, id);
    Leaves(done, id);
    var after := done[id := Black];
    assert Grays(after) == Grays(st);
    RankOneMore(g, Blacks(done), id);
    forall x | x in Blacks(after) && x !in Blacks(st)
      ensures Reaches(g, [id], x)
    {
      if x == id {
        assert Leads(g, [id], [id], id);
      } else {
        ReachesBelow(g, id, x);
      }
    }
  }

  lemma {:induction false} VisitAllAdvances<Id(!new)>(g: Graph<Id>, ids: seq<Id>, depth: nat, st: State<Id>)
    requires VisitAll(g, ids, depth, st).Go? && Ranked(g, Blacks(st))
    ensures Advances(g, ids, st, VisitAll(g, ids, depth, st).state)
    decreases Fuel(depth), 2, |ids|
  {
    if ids != [] {
      VisitAdvances(g, ids[0], depth, st);
      var mid := Visit(g, ids[0], depth, st).state;
      VisitAllAdvances(g, ids[1..], depth, mid);
      var after := VisitAll(g, ids[1..], depth, mid).state;
      assert forall x :: x in ids <==> x == ids[0] || x in ids[1..];
      forall x | x in Blacks(after) && x !in Blacks(st)
        ensures Reaches(g, ids, x)
      {
        if x in Blacks(mid) {
          ReachesMore(g, [ids[0]], ids, x);
        } else {
          ReachesMore(g, ids[1..], ids, x);
        }
      }
    }
  }

  lemma {:induction false} RankFalls<Id>(g: Graph<Id>, blacks: set<Id>, rank: map<Id, nat>, p: seq<Id>)
    requires Ranks(g, blacks, rank) && Path(g, p) && p[0] in blacks
    ensures p[|p| - 1] in blacks && rank[p[|p| - 1]] + |p| - 1 <= rank[p[0]]
    decreases |p|
  {
    if |p| > 1 {
      assert p[1] in g[p[0]];
      assert Path(g, p[1..]);
      RankFalls(g, blacks, rank, p[1..]);
    }
  }

  lemma WalkedGraphIsGood<Id(!new)>(g: Graph<Id>, roots: seq<Id>)
    requires var w := VisitAll(g, roots, 0, map[]); w.Go? && |w.state| == |g|
    ensures Good(g, roots)
  {
    hide Visit, VisitAll;
    var st: State<Id> := map[];
    NothingSeen(g);
    VisitAllAdvances(g, roots, 0, st);
    var after := VisitAll(g, roots, 0, st).state;
    var rank :| Ranks(g, Blacks(after), rank);
    AllFinished(g, after);
    forall p | Path(g, p) && |p| > 1
      ensures p[0] != p[|p| - 1]
    {
      assert p[0] in g;
      RankFalls(g, Blacks(after), rank, p);
    }
  }

  lemma AllFinished<Id(!new)>(g: Graph<Id>, after: State<Id>)
    requires Grays(after) == {} && Ranked(g, Blacks(after)) && |after| == |g|
    ensures Blacks(after) == g.Keys
  {
    var rank :| Ranks(g, Blacks(after), rank);
    assert forall x :: x in after ==> x in Grays(after) || x in Blacks(after);
    assert after.Keys == Blacks(after) && |after| == |after.Keys| && |g| == |g.Keys|;
    SameSize(Blacks(after), g.Keys);
  }

  lemma SameSize<Id>(a: set<Id>, b: set<Id>)
    requires a <= b && |a| == |b|
    ensures a == b
  {
    assert b == a + (b - a) && |b| == |a| + |b - a|;
  }

  // ---------- Good and shallow graphs are accepted ----------

  /** A chain that comes back to one of its members is a cycle. */
  lemma NoReturn<Id(!new)>(g: Graph<Id>, p: seq<Id>, k: nat)
    requires Acyclic(g) && Path(g, p) && k < |p| - 1
    ensures p[k] != p[|p| - 1]
  {
    var q := p[k..];
    assert Path(g, q) && q[0] == p[k] && q[|q| - 1] == p[|p| - 1];
  }

  /** The nodes the walk is inside of all lie on the chain it came by. */
  ghost predicate Inside<Id>(st: State<Id>, p: seq<Id>) {
    forall x :: x in Grays(st) ==> x in p
  }

  lemma {:induction false} VisitSucceeds<Id(!new)>(g: Graph<Id>, roots: seq<Id>, p: seq<Id>, st: State<Id>)
    requires Resolves(g) && Acyclic(g) && Shallow(g, roots) && Ranked(g, Blacks(st))
    requires Path(g, p) && p[0] in roots && p[|p| - 1] in g && Inside(st, p[..|p| - 1])
    ensures Visit(g, p[|p| - 1], |p| - 1, st).Go?
    decreases Fuel(|p| - 1), 1, 0
  {
    var id := p[|p| - 1];
    assert |p| - 1 <= MAX_DEPTH;
    if id in st {
      if st[id] == Gray {
        assert id in Grays(st);
        var k :| 0 <= k < |p| - 1 && p[..|p| - 1][k] == id;
        NoReturn(g, p, k);
      }
    } else {
      Enters(st, id);
      assert forall x :: x in p[..|p| - 1] ==> x in p;
      VisitAllSucceeds(g, roots, p, g[id], st[id := Gray]);
    }
  }

  lemma {:induction false} VisitAllSucceeds<Id(!new)>(g: Graph<Id>, roots: seq<Id>, p: seq<Id>, ids: seq<Id>, st: State<Id>)
    requires Resolves(g) && Acyclic(g) && Shallow(g, roots) && Ranked(g, Blacks(st))
    requires Path(g, p) && p[0] in roots && p[|p| - 1] in g && Inside(st, p)
    requires forall x :: x in ids ==> x in g[p[|p| - 1]]
    ensures VisitAll(g, ids, |p|, st).Go?
    decreases Fuel(|p|), 2, |ids|
  {
    if ids != [] {
      var q := p + [ids[0]];
      assert ids[0] in ids && q[..|q| - 1] == p && Path(g, q);
      assert |q| - 1 <= MAX_DEPTH;
      VisitSucceeds(g, roots, q, st);
      VisitAdvances(g, ids[0], |p|, st);
      assert forall x :: x in ids[1..] ==> x in ids;
      VisitAllSucceeds(g, roots, p, ids[1..], Visit(g, ids[0], |p|, st).state);
    }
  }

  lemma {:induction false} RootsSucceed<Id(!new)>(g: Graph<Id>, roots: seq<Id>, ids: seq<Id>, st: State<Id>)
    requires Resolves(g) && Acyclic(g) && Shallow(g, roots) && Ranked(g, Blacks(st)) && Grays(st) == {}
    requires forall x :: x in ids ==> x in roots && x in g
    ensures VisitAll(g, ids, 0, st).Go?
    decreases |ids|
  {
    if ids != [] {
      assert ids[0] in ids;
      VisitSucceeds(g, roots, [ids[0]], st);
      VisitAdvances(g, ids[0], 0, st);
      RootsSucceed(g, roots, ids[1..], Visit(g, ids[0], 0, st).state);
    }
  }

  lemma {:induction false} BlackDownwards<Id(!new)>(g: Graph<Id>, blacks: set<Id>, p: seq<Id>)
    requires Ranked(g, blacks) && Path(g, p) && p[0] in blacks
    ensures p[|p| - 1] in blacks
  {
    var rank :| Ranks(g, blacks, rank);
    RankFalls(g, blacks, rank, p);
  }

  lemma GoodGraphIsWalked<Id(!new)>(g: Graph<Id>, roots: seq<Id>)
    requires Good(g, roots) && Shallow(g, roots) && forall x :: x in roots ==> x in g
    ensures var w := VisitAll(g, roots, 0, map[]); w.Go? && |w.state| == |g|
  {
    hide Visit, VisitAll, Acyclic, Shallow;
    var st: State<Id> := map[];
    NothingSeen(g);
    RootsSucceed(g, roots, roots, st);
    VisitAllAdvances(g, roots, 0, st);
    var after := VisitAll(g, roots, 0, st).state;
    forall x | x in g
      ensures x in Blacks(after)
    {
      var p :| Leads(g, p, roots, x);
      BlackDownwards(g, Blacks(after), p);
    }
    AllSeen(g, after);
  }

  lemma NothingSeen<Id(!new)>(g: Graph<Id>)
    ensures var st: State<Id> := map[]; Blacks(st) == {} && Grays(st) == {} && Ranked(g, Blacks(st))
  {
    var st: State<Id> := map[];
    assert Blacks(st) == {};
    assert Ranks(g, Blacks(st), map[]);
  }

  lemma AllSeen<Id(!new)>(g: Graph<Id>, after: State<Id>)
    requires Grays(after) == {} && Ranked(g, Blacks(after)) && forall x :: x in g ==> x in Blacks(after)
    ensures |after| == |g|
  {
    var rank :| Ranks(g, Blacks(after), rank);
    assert forall x :: x in after ==> x in Grays(after) || x in Blacks(after);
    assert after.Keys == g.Keys && |after| == |after.Keys| && |g| == |g.Keys|;
  }

  // ---------- The verdict ----------

  /** What does not concern the shape of the graph. */
  predicate WellIndexed<Id(==)>(m: Manifest<Id>) {
    m.versionOk && m.nodes != [] && m.roots != [] && |m.nodes| <= MAX_NODES &&
    IndexNodes(m.nodes).Indexed? && RootsOk(IndexNodes(m.nodes).graph, m.roots)
  }

  /** Acceptance always means a good graph; where no chain from a root has more than 256 links it means
      exactly that. */
  lemma AcceptanceMeans<Id(!new)>(m: Manifest<Id>)
    ensures GraphValid(m) ==> WellIndexed(m) && Good(IndexNodes(m.nodes).graph, m.roots)
    ensures WellIndexed(m) && Shallow(IndexNodes(m.nodes).graph, m.roots) ==>
            (GraphValid(m) <==> Good(IndexNodes(m.nodes).graph, m.roots))
  {
    if WellIndexed(m) {
      var g := IndexNodes(m.nodes).graph;
      RootsInGraph(g, m.roots);
      if GraphValid(m) {
        WalkedGraphIsGood(g, m.roots);
      } else if Shallow(g, m.roots) && Good(g, m.roots) {
        GoodGraphIsWalked(g, m.roots);
      }
    }
  }

  lemma {:induction false} RootsInGraph<Id>(g: Graph<Id>, roots: seq<Id>)
    requires RootsOk(g, roots)
    ensures forall x :: x in roots ==> x in g
  {
    if roots != [] { RootsInGraph(g, roots[1..]); }
  }

  // ---------- Order does not matter in shallow graphs ----------

  /** The same records, roots and parents, listed in whatever order. */
  ghost predicate Alike<Id(!new)>(g: Graph<Id>, roots: seq<Id>, h: Graph<Id>, others: seq<Id>) {
    && g.Keys == h.Keys && (forall x :: x in roots <==> x in others)
    && forall x, y :: x in g ==> (y in g[x] <==> y in h[x])
  }

  lemma AlikePaths<Id(!new)>(g: Graph<Id>, roots: seq<Id>, h: Graph<Id>, others: seq<Id>)
    requires Alike(g, roots, h, others)
    ensures forall p :: Path(g, p) <==> Path(h, p)
  {
  }

  lemma AlikeIsAsGood<Id(!new)>(g: Graph<Id>, roots: seq<Id>, h: Graph<Id>, others: seq<Id>)
    requires Alike(g, roots, h, others)
    ensures Good(g, roots) ==> Good(h, others)
    ensures Shallow(g, roots) ==> Shallow(h, others)
  {
    AlikePaths(g, roots, h, others);
    if Good(g, roots) {
      forall x | x in h
        ensures Reaches(h, others, x)
      {
        var p :| Leads(g, p, roots, x);
        assert Leads(h, p, others, x);
      }
    }
  }

  lemma OrderDoesNotMatter<Id(!new)>(m: Manifest<Id>, other: Manifest<Id>)
    requires WellIndexed(m) && WellIndexed(other)
    requires Alike(IndexNodes(m.nodes).graph, m.roots, IndexNodes(other.nodes).graph, other.roots)
    requires Shallow(IndexNodes(m.nodes).graph, m.roots)
    ensures GraphValid(m) <==> GraphValid(other)
  {
    var g, h := IndexNodes(m.nodes).graph, IndexNodes(other.nodes).graph;
    AlikeIsAsGood(g, m.roots, h, other.roots);
    AlikeIsAsGood(h, other.roots, g, m.roots);
    AcceptanceMeans(m);
    AcceptanceMeans(other);
  }

  // ---------- Where order does matter ----------

  /** The same manifest with its records, roots and parents in another order. */
  ghost predicate Reordered<Id(!new)>(m: Manifest<Id>, other: Manifest<Id>)
    requires WellIndexed(m)
  {
    && WellIndexed(other) && multiset(other.roots) == multiset(m.roots)
    && var g, h := IndexNodes(m.nodes).graph, IndexNodes(other.nodes).graph;
    && g.Keys == h.Keys && forall x :: x in g ==> multiset(g[x]) == multiset(h[x])
  }

  /** What follows `x` on a chain. */
  function NextOn<Id(==)>(p: seq<Id>, x: Id): seq<Id> {
    if |p| < 2 then [] else if p[0] == x then [p[1]] else NextOn(p[1..], x)
  }

  function Without<Id(==)>(x: Id, xs: seq<Id>): seq<Id> {
    if xs == [] then [] else if xs[0] == x then xs[1..] else [xs[0]] + Without(x, xs[1..])
  }

  function ToFront<Id(==)>(x: Id, xs: seq<Id>): seq<Id> {
    if x in xs then [x] + Without(x, xs) else xs
  }

  /** The parents of `x`, the one that is next on the chain first. */
  function Led<Id(==)>(p: seq<Id>, x: Id, parents: seq<Id>): seq<Id> {
    var next := NextOn(p, x);
    if next == [] then parents else ToFront(next[0], parents)
  }

  function LedNodes<Id(==)>(p: seq<Id>, nodes: seq<Node<Id>>): (r: seq<Node<Id>>)
    ensures |r| == |nodes|
  {
    seq(|nodes|, i requires 0 <= i < |nodes| => nodes[i].(parents := Led(p, nodes[i].id, nodes[i].parents)))
  }

  lemma {:induction false} WithoutIsRest<Id>(x: Id, xs: seq<Id>)
    requires x in xs
    ensures multiset([x] + Without(x, xs)) == multiset(xs)
  {
    assert xs == [xs[0]] + xs[1..];
    if xs[0] != x { WithoutIsRest(x, xs[1..]); }
  }

  lemma ToFrontIsSame<Id>(x: Id, xs: seq<Id>)
    ensures multiset(ToFront(x, xs)) == multiset(xs) && (x in xs ==> ToFront(x, xs)[0] == x)
  {
    if x in xs { WithoutIsRest(x, xs); }
  }

  lemma LedIsSame<Id>(p: seq<Id>, x: Id, parents: seq<Id>)
    ensures multiset(Led(p, x, parents)) == multiset(parents)
  {
    var next := NextOn(p, x);
    if next != [] { ToFrontIsSame(next[0], parents); }
  }

  lemma {:induction false} LedIndex<Id>(p: seq<Id>, nodes: seq<Node<Id>>)
    requires IndexNodes(nodes).Indexed?
    ensures IndexNodes(LedNodes(p, nodes)).Indexed?
    ensures var g, h := IndexNodes(nodes).graph, IndexNodes(LedNodes(p, nodes)).graph;
            g.Keys == h.Keys && forall x :: x in g ==> h[x] == Led(p, x, g[x])
    decreases |nodes|
  {
    if nodes != [] {
      var n := |nodes| - 1;
      assert LedNodes(p, nodes)[..n] == LedNodes(p, nodes[..n]);
      LedIndex(p, nodes[..n]);
    }
  }

  lemma {:induction false} NextOnChain<Id>(p: seq<Id>, k: nat)
    requires k + 1 < |p| && forall i, j :: 0 <= i < j < |p| ==> p[i] != p[j]
    ensures NextOn(p, p[k]) == [p[k + 1]]
  {
    if k > 0 {
      assert forall i, j :: 0 <= i < j < |p[1..]| ==> p[1..][i] == p[i + 1] && p[1..][j] == p[j + 1];
      NextOnChain(p[1..], k - 1);
    }
  }

  lemma {:induction false} WithoutKeeps<Id>(g: Graph<Id>, x: Id, roots: seq<Id>)
    requires RootsOk(g, roots) && x in roots
    ensures RootsOk(g, Without(x, roots)) && x !in Without(x, roots) && forall y :: y in Without(x, roots) ==> y in roots
  {
    if roots[0] != x { WithoutKeeps(g, x, roots[1..]); }
  }

  lemma {:induction false} SameKeysOk<Id>(g: Graph<Id>, h: Graph<Id>, roots: seq<Id>)
    requires RootsOk(g, roots) && g.Keys == h.Keys
    ensures RootsOk(h, roots)
  {
    if roots != [] { SameKeysOk(g, h, roots[1..]); }
  }

  lemma RootToFront<Id>(g: Graph<Id>, h: Graph<Id>, x: Id, roots: seq<Id>)
    requires RootsOk(g, roots) && x in roots && g.Keys == h.Keys
    ensures RootsOk(h, ToFront(x, roots)) && ToFront(x, roots) != [] && ToFront(x, roots)[0] == x
  {
    WithoutKeeps(g, x, roots);
    SameKeysOk(g, h, Without(x, roots));
    RootsInGraph(g, roots);
    assert ([x] + Without(x, roots))[1..] == Without(x, roots);
  }

  /** A walk that takes the chain first goes too deep. */
  lemma {:induction false} ChainFirstFails<Id>(h: Graph<Id>, q: seq<Id>, k: nat, st: State<Id>)
    requires |q| == MAX_DEPTH + 2 && k < |q| && (forall i, j :: 0 <= i < j < |q| ==> q[i] != q[j])
    requires forall i :: 0 <= i < |q| - 1 ==> q[i] in h && h[q[i]] != [] && h[q[i]][0] == q[i + 1]
    requires forall j :: k <= j < |q| ==> q[j] !in st
    ensures Visit(h, q[k], k, st) == Fail(TooDeep)
    decreases |q| - k
  {
    if k <= MAX_DEPTH {
      ChainFirstFails(h, q, k + 1, st[q[k] := Gray]);
      assert VisitAll(h, h[q[k]], k + 1, st[q[k] := Gray]) == Fail(TooDeep);
    }
  }

  lemma ChainIsDistinct<Id(!new)>(g: Graph<Id>, p: seq<Id>, n: nat)
    requires Acyclic(g) && Path(g, p) && 0 < n <= |p|
    ensures Path(g, p[..n]) && forall i, j :: 0 <= i < j < n ==> p[..n][i] != p[..n][j]
  {
    forall i, j | 0 <= i < j < n
      ensures p[i] != p[j]
    {
      assert Path(g, p[..j + 1]);
      NoReturn(g, p[..j + 1], i);
    }
  }

  /** The manifest with a chain put first. */
  function ChainFirst<Id(==)>(m: Manifest<Id>, q: seq<Id>): Manifest<Id>
    requires q != []
  {
    Manifest(m.versionOk, LedNodes(q, m.nodes), ToFront(q[0], m.roots))
  }

  lemma ChainFirstIsReordered<Id(!new)>(m: Manifest<Id>, q: seq<Id>)
    requires WellIndexed(m) && q != [] && q[0] in m.roots
    ensures Reordered(m, ChainFirst(m, q))
  {
    hide IndexNodes, LedNodes, ToFront, RootsOk, Led;
    LedIndex(q, m.nodes);
    var g, h := IndexNodes(m.nodes).graph, IndexNodes(LedNodes(q, m.nodes)).graph;
    RootToFront(g, h, q[0], m.roots);
    ToFrontIsSame(q[0], m.roots);
    forall x | x in g
      ensures multiset(g[x]) == multiset(h[x])
    {
      LedIsSame(q, x, g[x]);
    }
  }

  lemma ChainFirstIsRefused<Id(!new)>(m: Manifest<Id>, q: seq<Id>)
    requires WellIndexed(m) && |q| == MAX_DEPTH + 2 && Path(IndexNodes(m.nodes).graph, q) && q[0] in m.roots
    requires forall i, j :: 0 <= i < j < |q| ==> q[i] != q[j]
    ensures !GraphValid(ChainFirst(m, q))
  {
    hide IndexNodes, LedNodes, RootsOk, Visit;
    var g := IndexNodes(m.nodes).graph;
    LedIndex(q, m.nodes);
    var h := IndexNodes(LedNodes(q, m.nodes)).graph;
    forall i | 0 <= i < |q| - 1
      ensures q[i] in h && h[q[i]] != [] && h[q[i]][0] == q[i + 1]
    {
      NextOnChain(q, i);
      ToFrontIsSame(q[i + 1], g[q[i]]);
      assert h[q[i]] == Led(q, q[i], g[q[i]]);
    }
    ChainFirstFails(h, q, 0, map[]);
    RootToFront(g, h, q[0], m.roots);
    assert VisitAll(h, ToFront(q[0], m.roots), 0, map[]) == Fail(TooDeep);
  }

  /** A good manifest is accepted in every order exactly if no chain from a root has more than 256 links. */
  lemma AcceptedInEveryOrder<Id(!new)>(m: Manifest<Id>)
    requires WellIndexed(m) && Good(IndexNodes(m.nodes).graph, m.roots)
    ensures (forall other :: Reordered(m, other) ==> GraphValid(other)) <==> Shallow(IndexNodes(m.nodes).graph, m.roots)
  {
    hide Reordered, IndexNodes, GraphValid;
    var g := IndexNodes(m.nodes).graph;
    if Shallow(g, m.roots) {
      forall other | Reordered(m, other)
        ensures GraphValid(other)
      {
        ReorderedIsAccepted(m, other);
      }
    } else {
      var p :| Path(g, p) && p[0] in m.roots && |p| - 1 > MAX_DEPTH;
      var q := p[..MAX_DEPTH + 2];
      ChainIsDistinct(g, p, MAX_DEPTH + 2);
      ChainFirstIsReordered(m, q);
      ChainFirstIsRefused(m, q);
    }
  }

  lemma ReorderedIsAccepted<Id(!new)>(m: Manifest<Id>, other: Manifest<Id>)
    requires WellIndexed(m) && Good(IndexNodes(m.nodes).graph, m.roots) && Shallow(IndexNodes(m.nodes).graph, m.roots)
    requires Reordered(m, other)
    ensures GraphValid(other)
  {
    hide IndexNodes, GraphValid, Good, Shallow, RootsOk;
    var g, h := IndexNodes(m.nodes).graph, IndexNodes(other.nodes).graph;
    assert forall x :: x in m.roots <==> x in multiset(m.roots);
    assert forall x :: x in other.roots <==> x in multiset(other.roots);
    forall x, y | x in g
      ensures y in g[x] <==> y in h[x]
    {
      assert y in g[x] <==> y in multiset(g[x]);
      assert y in h[x] <==> y in multiset(h[x]);
    }
    AcceptanceMeans(m);
    OrderDoesNotMatter(m, other);
  }
}
