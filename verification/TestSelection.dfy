/** What gets tested. */
module TestSelection {
  // Which functions and which branches the orchestrator tests, in terms of the blocks alone.

  import opened StubRestore

  // ---------- Branches ----------

  /** No edge leads there. */
  predicate Unled(edges: seq<Edge>, f: string) {
    forall i :: 0 <= i < |edges| ==> edges[i].target != f
  }

  lemma {:induction false} SourcesMean(edges: seq<Edge>, called: seq<string>, f: string)
    ensures multiset(Sources(edges, called))[f] == if Unled(edges, f) then multiset(called)[f] else 0
    decreases |called|
  {
    if called != [] {
      SourcesMean(edges, called[1..], f);
      assert called == [called[0]] + called[1..];
      assert called[0] in Targets(edges) <==> !Unled(edges, called[0]);
    }
  }

  lemma {:induction false} SeveralSources(edges: seq<Edge>, called: seq<string>)
    ensures |Sources(edges, called)| >= 1 <==> exists i :: 0 <= i < |called| && Unled(edges, called[i])
    ensures |Sources(edges, called)| >= 2 <==> exists i, j :: 0 <= i < j < |called| && Unled(edges, called[i]) && Unled(edges, called[j])
    decreases |called|
  {
    hide Unled, Targets;
    if called != [] {
      var rest := called[1..];
      SeveralSources(edges, rest);
      SourceOrNot(edges, called[0]);
      assert forall i :: 0 < i < |called| ==> called[i] == rest[i - 1];
      assert forall i :: 0 <= i < |rest| ==> rest[i] == called[i + 1];
    }
  }

  lemma SourceOrNot(edges: seq<Edge>, f: string)
    ensures f in Targets(edges) <==> !Unled(edges, f)
  {
  }

  /** A branch is tested from every called function of a pipeline that no edge leads to, as often as it is called,
      provided there are two such places; other blocks have no branches. */
  lemma WhichBranches(b: LogicBlock, f: string)
    ensures multiset(BranchRoots(b))[f] ==
            if b.isPipeline && Unled(b.edges, f) &&
               exists i, j :: 0 <= i < j < |b.called| && Unled(b.edges, b.called[i]) && Unled(b.edges, b.called[j])
            then multiset(b.called)[f] else 0
  {
    hide Unled, Sources;
    SourcesMean(b.edges, b.called, f);
    SeveralSources(b.edges, b.called);
  }

  // ---------- Stages ----------

  /** A called function without a stage of its own belongs to stage 0. */
  function Stage(b: LogicBlock, i: nat): int { if i < |b.stages| then b.stages[i] else 0 }

  lemma {:induction false} StageMembers(b: LogicBlock, stage: int, n: nat, f: string)
    requires n <= |b.called|
    ensures f in InStage(b, stage, n) <==> exists i :: 0 <= i < n && Stage(b, i) == stage && b.called[i] == f
    ensures |InStage(b, stage, n)| >= 1 <==> exists i :: 0 <= i < n && Stage(b, i) == stage
    ensures |InStage(b, stage, n)| >= 2 <==> exists i, j :: 0 <= i < j < n && Stage(b, i) == stage && Stage(b, j) == stage
  {
    if n > 0 {
      StageMembers(b, stage, n - 1, f);
      assert Stage(b, n - 1) == StageOf(b, n - 1);
    }
  }

  lemma {:induction false} Inserted(stage: int, stages: seq<int>, x: int)
    ensures x in InsertStage(stage, stages) <==> x == stage || x in stages
  {
    if stages != [] {
      Inserted(stage, stages[1..], x);
      assert stages == [stages[0]] + stages[1..];
    }
  }

  lemma {:induction false} StagesUsed(b: LogicBlock, n: nat, x: int)
    requires n <= |b.called|
    ensures x in StagesOf(b, n) <==> exists i :: 0 <= i < n && Stage(b, i) == x
  {
    if n > 0 {
      StagesUsed(b, n - 1, x);
      Inserted(StageOf(b, n - 1), StagesOf(b, n - 1), x);
      assert Stage(b, n - 1) == StageOf(b, n - 1);
    }
  }

  lemma {:induction false} SharingMeans(b: LogicBlock, stages: seq<int>, f: string)
    ensures f in Sharing(b, stages) <==> exists x :: x in stages && |InStage(b, x, |b.called|)| >= 2 && f in InStage(b, x, |b.called|)
    decreases |stages|
  {
    hide InStage;
    if stages != [] {
      SharingMeans(b, stages[1..], f);
      assert stages[0] in stages && forall x :: x in stages <==> x == stages[0] || x in stages[1..];
    }
  }

  /** Another place of the same stage. */
  predicate Shares(b: LogicBlock, i: nat, j: nat) {
    i < |b.called| && j < |b.called| && i != j && Stage(b, i) == Stage(b, j)
  }

  lemma SharingInBlock(b: LogicBlock, f: string)
    ensures f in Sharing(b, StagesOf(b, |b.called|)) <==> exists i: nat, j: nat :: Shares(b, i, j) && b.called[i] == f
  {
    hide Sharing, StagesOf, InStage;
    var n := |b.called|;
    SharingMeans(b, StagesOf(b, n), f);
    forall x: int
      ensures x in StagesOf(b, n) <==> exists i :: 0 <= i < n && Stage(b, i) == x
      ensures f in InStage(b, x, n) <==> exists i :: 0 <= i < n && Stage(b, i) == x && b.called[i] == f
      ensures |InStage(b, x, n)| >= 2 <==> exists i, j :: 0 <= i < j < n && Stage(b, i) == x && Stage(b, j) == x
    {
      StagesUsed(b, n, x);
      StageMembers(b, x, n, f);
    }
    if i: nat, j: nat :| Shares(b, i, j) && b.called[i] == f {
      var x := Stage(b, i);
      assert x in StagesOf(b, n) && f in InStage(b, x, n);
      if i < j { assert Stage(b, i) == x && Stage(b, j) == x; } else { assert Stage(b, j) == x && Stage(b, i) == x; }
      assert |InStage(b, x, n)| >= 2;
    }
    if x :| x in StagesOf(b, n) && |InStage(b, x, n)| >= 2 && f in InStage(b, x, n) {
      var i :| 0 <= i < n && Stage(b, i) == x && b.called[i] == f;
      var k, l :| 0 <= k < l < n && Stage(b, k) == x && Stage(b, l) == x;
      assert Shares(b, i, if i == k then l else k);
    }
  }

  /** A function is stubbed alone exactly if some block that is no pipeline calls it in a stage in which it calls at
      another place as well. */
  lemma {:induction false} WhichFunctions(blocks: seq<LogicBlock>, f: string)
    ensures f in IsolationTests(blocks) <==>
            exists k: nat, i: nat, j: nat :: k < |blocks| && !blocks[k].isPipeline && Shares(blocks[k], i, j) && blocks[k].called[i] == f
    decreases |blocks|
  {
    hide Sharing, StagesOf, Shares;
    if blocks != [] {
      var n := |blocks| - 1;
      var before := blocks[..n];
      WhichFunctions(before, f);
      SharingInBlock(blocks[n], f);
      assert forall k :: 0 <= k < n ==> before[k] == blocks[k];
    }
  }
}
