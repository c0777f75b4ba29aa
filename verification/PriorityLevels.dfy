/** Which level a function gets. */
module PriorityLevels {
  // The outcome in terms of the blocks and the annotations, level by level.

  import opened Options
  import opened Priority

  predicate EndsNamespace(p: string) {
    |p| >= 2 && p[|p| - 2..] == "::"
  }

  /** The part of a name up to its last `::`, or nothing. */
  ghost predicate IsNamespace(name: string, p: string) {
    p <= name && (p == [] || EndsNamespace(p)) && forall q: string :: q <= name && EndsNamespace(q) ==> |q| <= |p|
  }

  /** `a` calls `b`: `b` is named relative to the namespace of `a`, and the entry is not an assignment. */
  ghost predicate Calls(blocks: seq<Block>, a: string, b: string) {
    exists block, callee: string, p :: block in blocks && block.name == a && callee in block.called &&
      (callee == "<assign:" || !("<assign:" <= callee)) && IsNamespace(a, p) && b == p + callee
  }

  ghost predicate Leads(blocks: seq<Block>, functions: Priorities, p: seq<string>) {
    forall i :: 0 < i < |p| ==> Calls(blocks, p[i - 1], p[i]) && (p[i] in functions ==> functions[p[i]] == Normal)
  }

  /** A function annotated with that level leads to `f` by calls of functions without a level of their own. */
  ghost predicate Reaches(blocks: seq<Block>, functions: Priorities, level: Level, f: string) {
    exists p: seq<string> :: p != [] && p[|p| - 1] == f && p[0] in functions && functions[p[0]] == level && Leads(blocks, functions, p)
  }

  ghost predicate Gets(blocks: seq<Block>, functions: Priorities, eff: Priorities, f: string) {
    if f in functions && functions[f] != Normal then f in eff && eff[f] == functions[f]
    else if Reaches(blocks, functions, Critical, f) then f in eff && eff[f] == Critical
    else if Reaches(blocks, functions, High, f) then f in eff && eff[f] == High
    else if f in functions then f in eff && eff[f] == Normal
    else f !in eff
  }

  // ---------- Proof ----------

  predicate SeparatorAt(name: string, k: int) {
    0 <= k && k + 2 <= |name| && name[k] == ':' && name[k + 1] == ':'
  }

  lemma {:induction false} SeparatorIsLast(name: string)
    ensures match LastSeparator(name)
            case Some(k) => SeparatorAt(name, k) && forall j :: k < j ==> !SeparatorAt(name, j)
            case None => forall j :: !SeparatorAt(name, j)
    decreases |name|
  {
    if |name| >= 2 {
      SeparatorIsLast(name[1..]);
      assert forall j :: 0 < j ==> (SeparatorAt(name, j) <==> SeparatorAt(name[1..], j - 1));
    }
  }

  lemma PrefixIsNamespace(name: string)
    ensures IsNamespace(name, NamespacePrefix(name))
  {
    SeparatorIsLast(name);
    forall q: string | q <= name && EndsNamespace(q)
      ensures |q| <= |NamespacePrefix(name)|
    {
      EndsAtSeparator(name, q);
    }
    if LastSeparator(name).Some? {
      var p := NamespacePrefix(name);
      assert p[|p| - 2..] == [p[|p| - 2], p[|p| - 1]];
    }
  }

  lemma EndsAtSeparator(name: string, q: string)
    requires q <= name && EndsNamespace(q)
    ensures SeparatorAt(name, |q| - 2)
  {
    assert q[|q| - 2..][0] == name[|q| - 2] && q[|q| - 2..][1] == name[|q| - 1];
  }

  lemma OneNamespace(name: string, p: string, q: string)
    requires IsNamespace(name, p) && IsNamespace(name, q)
    ensures p == q
  {
    assert p == name[..|p|] && q == name[..|q|];
    assert |p| == |q|;
  }

  lemma {:induction false} QualifiedHolds(prefix: string, called: seq<string>, b: string)
    ensures b in Qualified(prefix, called) <==>
            exists c: string :: c in called && (c == "<assign:" || !("<assign:" <= c)) && b == prefix + c
    decreases |called|
  {
    if called != [] {
      var c := called[0];
      QualifiedHolds(prefix, called[1..], b);
      assert IsAssignment(c) <==> !(c == "<assign:" || !("<assign:" <= c)) by {
        AssignmentMeans(c);
      }
      assert forall x :: x in called <==> x == c || x in called[1..];
    }
  }

  lemma AssignmentMeans(c: string)
    ensures IsAssignment(c) <==> "<assign:" <= c && c != "<assign:"
  {
    if |c| >= 8 && c[..8] == "<assign:" {
      assert |c| == 8 ==> c == c[..8];
      assert "<assign:" <= c;
    }
  }

  ghost predicate Built(blocks: seq<Block>, g: Graph) {
    && (forall b :: b in blocks ==> Callees(g, b.name) == Qualified(NamespacePrefix(b.name), b.called))
    && (forall f :: f in g ==> exists b :: b in blocks && b.name == f)
  }

  /** The call graph holds the calls of the blocks. */
  lemma GraphIsCalls(blocks: seq<Block>, g: Graph, a: string, b: string)
    requires Built(blocks, g)
    ensures b in Callees(g, a) <==> Calls(blocks, a, b)
  {
    hide Qualified, NamespacePrefix, IsNamespace;
    PrefixIsNamespace(a);
    var p := NamespacePrefix(a);
    if b in Callees(g, a) {
      var block :| block in blocks && block.name == a;
      QualifiedHolds(p, block.called, b);
    }
    if Calls(blocks, a, b) {
      var block, callee: string, q :| block in blocks && block.name == a && callee in block.called &&
        (callee == "<assign:" || !("<assign:" <= callee)) && IsNamespace(a, q) && b == q + callee;
      OneNamespace(a, p, q);
      QualifiedHolds(p, block.called, b);
    }
  }

  lemma InheritsIsReaches(blocks: seq<Block>, functions: Priorities, g: Graph, f: string, level: Level)
    requires Built(blocks, g) && (level == Critical || level == High)
    ensures Inherits(g, functions, f, level) <==> Reaches(blocks, functions, level, f)
  {
    hide Built, Calls, Callees;
    forall p: seq<string> | p != []
      ensures Chain(g, functions, p) <==> Leads(blocks, functions, p)
    {
      forall i | 0 < i < |p|
        ensures p[i] in Callees(g, p[i - 1]) <==> Calls(blocks, p[i - 1], p[i])
      {
        GraphIsCalls(blocks, g, p[i - 1], p[i]);
      }
    }
    if Inherits(g, functions, f, level) {
      var p :| Carries(g, functions, p, level, f);
      assert Leads(blocks, functions, p);
    }
    if Reaches(blocks, functions, level, f) {
      var p: seq<string> :| p != [] && p[|p| - 1] == f && p[0] in functions && functions[p[0]] == level && Leads(blocks, functions, p);
      assert Carries(g, functions, p, level, f);
    }
  }

  lemma FixpointGets(blocks: seq<Block>, functions: Priorities, g: Graph, eff: Priorities, f: string)
    requires Built(blocks, g) && IsFixpoint(g, functions, eff)
    requires f in functions ==> f in eff
    requires f in eff && f !in functions ==> Elevated(eff, f)
    ensures Gets(blocks, functions, eff, f)
  {
    hide Built, Inherits, Reaches;
    InheritsIsReaches(blocks, functions, g, f, Critical);
    InheritsIsReaches(blocks, functions, g, f, High);
  }

  // ---------- Main result ----------

  /** Blocks and annotations in, the level of every function out. */
  method Analyze(blocks: seq<Block>, functions: Priorities) returns (eff: Priorities)
    requires forall i, j :: 0 <= i < j < |blocks| ==> blocks[i].name != blocks[j].name
    ensures forall f: string :: Gets(blocks, functions, eff, f)
  {
    var g := BuildCallGraph(blocks);
    ghost var pushes;
    eff, pushes := AnalyzePriority(functions, g);
    forall f: string
      ensures Gets(blocks, functions, eff, f)
    {
      FixpointGets(blocks, functions, g, eff, f);
    }
  }
}
