/** Priority propagation to its fixpoint. */
module Priority {
  // A worklist along calls.

  import opened Options

  datatype Level = Background | Low | Normal | High | Critical

  function Rank(p: Level): nat {
    match p
    case Critical => 4
    case High => 3
    case Normal => 2
    case Low => 1
    case Background => 0
  }

  datatype Block = Block(name: string, called: seq<string>)

  type Graph = map<string, seq<string>>

  // ---------- The call graph ----------

  /** The place of the last `::`. */
  function LastSeparator(name: string): (r: Option<nat>)
    ensures r.Some? ==> r.value + 2 <= |name|
  {
    if |name| < 2 then None
    else
      var later := LastSeparator(name[1..]);
      if later.Some? then Some(later.value + 1) else if name[0] == ':' && name[1] == ':' then Some(0) else None
  }

  function NamespacePrefix(name: string): string {
    var sep := LastSeparator(name);
    if sep.Some? then name[..sep.value + 2] else ""
  }

  predicate IsAssignment(callee: string) { |callee| > 8 && callee[..8] == "<assign:" }

  function Qualified(prefix: string, called: seq<string>): seq<string> {
    if called == [] then []
    else (if IsAssignment(called[0]) then [] else [prefix + called[0]]) + Qualified(prefix, called[1..])
  }

  function Callees(g: Graph, f: string): seq<string> {
    if f in g then g[f] else []
  }

  method BuildCallGraph(blocks: seq<Block>) returns (g: Graph)
    requires forall i, j :: 0 <= i < j < |blocks| ==> blocks[i].name != blocks[j].name
    ensures forall b :: b in blocks ==> Callees(g, b.name) == Qualified(NamespacePrefix(b.name), b.called)
    ensures forall f :: f in g ==> exists b :: b in blocks && b.name == f
  {
    g := map[];
    for i := 0 to |blocks|
      invariant forall k :: 0 <= k < i ==> Callees(g, blocks[k].name) == Qualified(NamespacePrefix(blocks[k].name), blocks[k].called)
      invariant forall f :: f in g ==> exists k :: 0 <= k < i && blocks[k].name == f
    {
      g := AddBlock(g, blocks[i]);
    }
  }

  method AddBlock(g0: Graph, b: Block) returns (g: Graph)
    requires b.name !in g0
    ensures Callees(g, b.name) == Qualified(NamespacePrefix(b.name), b.called)
    ensures forall f :: f != b.name ==> (f in g <==> f in g0) && (f in g0 ==> g[f] == g0[f])
  {
    g := g0;
    var nsPrefix := NamespacePrefix(b.name);
    for i := 0 to |b.called|
      invariant forall f :: f != b.name ==> (f in g <==> f in g0) && (f in g0 ==> g[f] == g0[f])
      invariant Callees(g, b.name) + Qualified(nsPrefix, b.called[i..]) == Qualified(nsPrefix, b.called)
    {
      assert b.called[i..][1..] == b.called[i + 1..];
      ghost var before := Callees(g, b.name);
      if !IsAssignment(b.called[i]) {
        g := g[b.name := Callees(g, b.name) + [nsPrefix + b.called[i]]];
        assert before + ([nsPrefix + b.called[i]] + Qualified(nsPrefix, b.called[i + 1..])) ==
               before + [nsPrefix + b.called[i]] + Qualified(nsPrefix, b.called[i + 1..]);
      } else {
        assert [] + Qualified(nsPrefix, b.called[i + 1..]) == Qualified(nsPrefix, b.called[i + 1..]);
      }
    }
  }

  // ---------- What the result should be ----------

  type Priorities = map<string, Level>

  function Of(eff: Priorities, f: string): Level {
    if f in eff then eff[f] else Normal
  }

  predicate Annotated(functions: Priorities, f: string) {
    f in functions && functions[f] != Normal
  }

  /** A chain of calls in which every function called has no annotation of its own. */
  predicate Chain(g: Graph, functions: Priorities, p: seq<string>) {
    p != [] && forall i :: 0 < i < |p| ==> p[i] in Callees(g, p[i - 1]) && !Annotated(functions, p[i])
  }

  /** `p` starts at an annotated function of the given level, above normal, and leads to `f`. */
  predicate Carries(g: Graph, functions: Priorities, p: seq<string>, level: Level, f: string) {
    Chain(g, functions, p) && p[0] in functions && functions[p[0]] == level && Rank(level) > Rank(Normal) && p[|p| - 1] == f
  }

  ghost predicate Inherits(g: Graph, functions: Priorities, f: string, level: Level) {
    exists p :: Carries(g, functions, p, level, f)
  }

  /** Annotated functions keep their level. Every other one has the highest level that reaches it
      through functions without annotation, and normal priority if none does. */
  ghost predicate IsFixpoint(g: Graph, functions: Priorities, eff: Priorities) {
    forall f ::
      if Annotated(functions, f) then Of(eff, f) == functions[f]
      else
        && Rank(Of(eff, f)) >= Rank(Normal)
        && (Rank(Of(eff, f)) > Rank(Normal) ==> Inherits(g, functions, f, Of(eff, f)))
        && (forall level :: Inherits(g, functions, f, level) ==> Rank(level) <= Rank(Of(eff, f)))
  }

  lemma RankIsInjective(a: Level, b: Level)
    requires Rank(a) == Rank(b)
    ensures a == b
  {
  }

  /** That fixes the outcome: no order of iteration can lead to another one. */
  lemma FixpointIsUnique(g: Graph, functions: Priorities, a: Priorities, b: Priorities, f: string)
    requires IsFixpoint(g, functions, a) && IsFixpoint(g, functions, b)
    ensures Of(a, f) == Of(b, f)
  {
    if !Annotated(functions, f) {
      assert Rank(Of(a, f)) <= Rank(Of(b, f));
      assert Rank(Of(b, f)) <= Rank(Of(a, f));
      RankIsInjective(Of(a, f), Of(b, f));
    }
  }

  // ---------- The worklist ----------

  /** The levels so far: annotations kept, nothing raised without reason. */
  ghost predicate Sound(g: Graph, functions: Priorities, eff: Priorities) {
    && (forall f :: f in functions ==> f in eff)
    && (forall f :: f in eff && f !in functions ==> Elevated(eff, f))
    && (forall f :: f in eff ==> if Annotated(functions, f) then eff[f] == functions[f]
                                 else Rank(eff[f]) >= Rank(Normal) && (Rank(eff[f]) > Rank(Normal) ==> Inherits(g, functions, f, eff[f])))
  }

  /** `f` has nothing left to hand on to the first `n` functions it calls. */
  predicate HandedOn(g: Graph, functions: Priorities, eff: Priorities, f: string, n: nat)
    requires n <= |Callees(g, f)|
  {
    forall i :: 0 <= i < n ==> Annotated(functions, Callees(g, f)[i]) || Rank(Of(eff, f)) <= Rank(Of(eff, Callees(g, f)[i]))
  }

  predicate Elevated(eff: Priorities, f: string) { Rank(Of(eff, f)) > Rank(Normal) }

  ghost predicate Settled(g: Graph, functions: Priorities, eff: Priorities, open: seq<string>) {
    forall f :: f in eff && Elevated(eff, f) && f !in open ==> HandedOn(g, functions, eff, f, |Callees(g, f)|)
  }

  lemma {:induction false} ChainHandsOn(g: Graph, functions: Priorities, eff: Priorities, p: seq<string>, level: Level)
    requires Sound(g, functions, eff) && Settled(g, functions, eff, [])
    requires p != [] && Carries(g, functions, p, level, p[|p| - 1])
    ensures Rank(level) <= Rank(Of(eff, p[|p| - 1]))
    decreases |p|
  {
    if |p| > 1 {
      var q := p[..|p| - 1];
      assert Chain(g, functions, q) && q[0] == p[0];
      ChainHandsOn(g, functions, eff, q, level);
      var f := q[|q| - 1];
      assert p[|p| - 1] in Callees(g, f);
      assert Elevated(eff, f) && HandedOn(g, functions, eff, f, |Callees(g, f)|);
    }
  }

  lemma SettledIsFixpoint(g: Graph, functions: Priorities, eff: Priorities)
    requires Sound(g, functions, eff) && Settled(g, functions, eff, [])
    ensures IsFixpoint(g, functions, eff)
  {
    forall f, level | !Annotated(functions, f) && Inherits(g, functions, f, level)
      ensures Rank(level) <= Rank(Of(eff, f))
    {
      var p :| Carries(g, functions, p, level, f);
      ChainHandsOn(g, functions, eff, p, level);
    }
  }

  // ---------- How often a level can be raised ----------

  /** The steps left up to critical priority, over a list of functions. */
  function Room(names: seq<string>, functions: Priorities, eff: Priorities): nat {
    if names == [] then 0
    else (if Annotated(functions, names[0]) then 0 else 4 - Rank(Of(eff, names[0]))) + Room(names[1..], functions, eff)
  }

  lemma {:induction false} RoomIsBounded(names: seq<string>, functions: Priorities)
    ensures Room(names, functions, functions) <= 2 * |names|
  {
    if names != [] { RoomIsBounded(names[1..], functions); }
  }

  lemma {:induction false} RaisingTakesRoom(names: seq<string>, functions: Priorities, eff: Priorities, f: string, level: Level)
    requires !Annotated(functions, f) && Rank(level) > Rank(Of(eff, f))
    ensures Room(names, functions, eff[f := level]) <= Room(names, functions, eff) - if f in names then 1 else 0
  {
    if names != [] {
      RaisingTakesRoom(names[1..], functions, eff, f, level);
    }
  }

  ghost function Listed(s: set<string>): (r: seq<string>)
    ensures |r| == |s| && forall x :: x in r <==> x in s
    decreases |s|
  {
    if s == {} then [] else var x :| x in s; [x] + Listed(s - {x})
  }

  function AllCallees(g: Graph): set<string> {
    set f, c | f in g && c in g[f] :: c
  }

  // ---------- The analysis ----------

  lemma RaiseKeepsSound(g: Graph, functions: Priorities, eff: Priorities, caller: string, c: string)
    requires Sound(g, functions, eff) && caller in eff && Elevated(eff, caller) && c in Callees(g, caller)
    requires !Annotated(functions, c)
    ensures Sound(g, functions, eff[c := eff[caller]])
  {
    var level := eff[caller];
    assert Inherits(g, functions, c, level) by {
      if Annotated(functions, caller) {
        assert Chain(g, functions, [caller, c]);
        assert Carries(g, functions, [caller, c], level, c);
      } else {
        var p :| Carries(g, functions, p, level, caller);
        var q := p + [c];
        assert Chain(g, functions, q);
        assert Carries(g, functions, q, level, c);
      }
    }
  }

  lemma RaiseKeepsSettled(g: Graph, functions: Priorities, eff: Priorities, open: seq<string>, c: string, level: Level)
    requires Settled(g, functions, eff, open) && Rank(level) > Rank(Of(eff, c))
    ensures Settled(g, functions, eff[c := level], open + [c])
  {
    var raised := eff[c := level];
    forall f | f in raised && Elevated(raised, f) && f !in open + [c]
      ensures HandedOn(g, functions, raised, f, |Callees(g, f)|)
    {
      assert c in open + [c] && f != c && f !in open;
      assert HandedOn(g, functions, eff, f, |Callees(g, f)|);
    }
  }

  /** Hands the level of `caller` on to the functions it calls; `extra` are pushed. */
  method HandOn(g: Graph, functions: Priorities, eff0: Priorities, caller: string, work0: seq<string>, ghost names: seq<string>)
    returns (eff: Priorities, work: seq<string>, ghost pushed: nat)
    requires Sound(g, functions, eff0) && Settled(g, functions, eff0, [caller] + work0)
    requires caller in eff0 && Elevated(eff0, caller) && forall f :: f in work0 ==> f in eff0 && Elevated(eff0, f)
    requires forall c :: c in Callees(g, caller) ==> c in names
    ensures Sound(g, functions, eff) && Settled(g, functions, eff, work)
    ensures forall f :: f in work ==> f in eff && Elevated(eff, f)
    ensures pushed + Room(names, functions, eff) <= Room(names, functions, eff0)
    ensures |work| == |work0| + pushed
  {
    hide Sound, Settled, Room, Callees;
    eff, work, pushed := eff0, work0, 0;
    var callerPri := eff[caller];
    var callees := Callees(g, caller);
    for i := 0 to |callees|
      invariant Sound(g, functions, eff) && Settled(g, functions, eff, [caller] + work)
      invariant caller in eff && eff[caller] == callerPri && HandedOn(g, functions, eff, caller, i)
      invariant forall f :: f in work ==> f in eff && Elevated(eff, f)
      invariant pushed + Room(names, functions, eff) <= Room(names, functions, eff0) && |work| == |work0| + pushed
    {
      var c := callees[i];
      if !Annotated(functions, c) && Rank(callerPri) > Rank(Of(eff, c)) {
        RaiseKeepsSound(g, functions, eff, caller, c);
        RaiseKeepsSettled(g, functions, eff, [caller] + work, c, callerPri);
        RaisingTakesRoom(names, functions, eff, c, callerPri);
        assert [caller] + work + [c] == [caller] + (work + [c]);
        eff, work, pushed := eff[c := callerPri], work + [c], pushed + 1;
      }
    }
    CallerIsSettled(g, functions, eff, caller, work);
  }

  lemma CallerIsSettled(g: Graph, functions: Priorities, eff: Priorities, caller: string, work: seq<string>)
    requires Settled(g, functions, eff, [caller] + work) && HandedOn(g, functions, eff, caller, |Callees(g, caller)|)
    ensures Settled(g, functions, eff, work)
  {
    forall f | f in eff && Elevated(eff, f) && f !in work
      ensures HandedOn(g, functions, eff, f, |Callees(g, f)|)
    {
      if f != caller {
        assert f !in [caller] + work;
      }
    }
  }

  /** The functions to start from, in any order. */
  method Seeds(functions: Priorities) returns (work: seq<string>)
    ensures forall f :: f in work <==> f in functions && Rank(functions[f]) > Rank(Normal)
    ensures |work| == |Urgent(functions, functions.Keys)|
  {
    work := [];
    var left := functions.Keys;
    ghost var seen: set<string> := {};
    while left != {}
      invariant left <= functions.Keys && left !! seen && seen + left == functions.Keys
      invariant |work| == |Urgent(functions, seen)| && forall f :: f in work <==> f in Urgent(functions, seen)
      decreases left
    {
      var f :| f in left;
      UrgentGrows(functions, seen, f);
      if Rank(functions[f]) > Rank(Normal) {
        work := work + [f];
      }
      left, seen := left - {f}, seen + {f};
    }
    assert seen == functions.Keys;
  }

  function Urgent(functions: Priorities, among: set<string>): set<string> {
    set f | f in among && f in functions && Rank(functions[f]) > Rank(Normal)
  }

  lemma UrgentGrows(functions: Priorities, among: set<string>, f: string)
    requires f in functions && f !in among
    ensures Urgent(functions, among + {f}) == Urgent(functions, among) + if Rank(functions[f]) > Rank(Normal) then {f} else {}
    ensures f !in Urgent(functions, among)
  {
  }

  /** The worklist is pushed to at most once for every annotated function above normal, and twice for
      every function called. */
  method AnalyzePriority(functions: Priorities, g: Graph) returns (eff: Priorities, ghost pushes: nat)
    ensures IsFixpoint(g, functions, eff)
    ensures forall f :: f in functions ==> f in eff
    ensures forall f :: f in eff && f !in functions ==> Elevated(eff, f)
    ensures pushes <= |Urgent(functions, functions.Keys)| + 2 * |AllCallees(g)|
  {
    hide Sound, Settled, Room, Callees, AllCallees, IsFixpoint;
    eff := functions;
    var worklist := Seeds(functions);
    pushes := |worklist|;
    ghost var names := Listed(AllCallees(g));
    ghost var seeds := |worklist|;
    RoomIsBounded(names, functions);
    AtTheStart(g, functions, worklist);
    while worklist != []
      invariant Sound(g, functions, eff) && Settled(g, functions, eff, worklist)
      invariant forall f :: f in worklist ==> f in eff && Elevated(eff, f)
      invariant pushes + Room(names, functions, eff) <= seeds + Room(names, functions, functions)
      decreases Room(names, functions, eff), |worklist|
    {
      var caller := worklist[0];
      assert worklist == [caller] + worklist[1..];
      ghost var pushed;
      CalleesCounted(g, caller);
      eff, worklist, pushed := HandOn(g, functions, eff, caller, worklist[1..], names);
      pushes := pushes + pushed;
    }
    SettledIsFixpoint(g, functions, eff);
    SoundKeys(g, functions, eff);
  }

  lemma AtTheStart(g: Graph, functions: Priorities, seeds: seq<string>)
    requires forall f :: f in seeds <==> f in functions && Rank(functions[f]) > Rank(Normal)
    ensures Sound(g, functions, functions) && Settled(g, functions, functions, seeds)
    ensures forall f :: f in seeds ==> f in functions && Elevated(functions, f)
  {
  }

  lemma CalleesCounted(g: Graph, f: string)
    ensures forall c :: c in Callees(g, f) ==> c in AllCallees(g)
  {
  }

  lemma SoundKeys(g: Graph, functions: Priorities, eff: Priorities)
    requires Sound(g, functions, eff)
    ensures forall f :: f in functions ==> f in eff
    ensures forall f :: f in eff && f !in functions ==> Elevated(eff, f)
  {
  }
}
