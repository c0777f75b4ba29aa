/** Stub functions, build and test, then restore: whatever goes wrong in between, source files get their
    content back. */
module StubRestore {
  import opened Options

  datatype Reply = Stubbed(original: string) | Refused | Threw

  datatype Run = Passed | Failed | Aborted

  type Contents = map<string, string>

  /** What the stub generator does when it is called next. */
  datatype Act = Write(text: string) | Refuse | Throw

  /** The working tree and the tools that act on it. Where functions are found and what the stub generator
      does is scripted, by any script: a generator either replaces a whole file and hands back what was in
      it, or leaves it alone. A build leaves source files alone. A restore that cannot open a file says so;
      one whose write breaks off behind that does not. */
  class World {
    var files: Contents
    var failed: set<string>       // files a restore did not arrive in
    var silent: nat               // how many of these were not noticed
    var finds: seq<Option<string>>
    var acts: seq<Act>

    constructor (files: Contents, finds: seq<Option<string>>, acts: seq<Act>)
      ensures this.files == files && this.finds == finds && this.acts == acts && failed == {} && silent == 0
    {
      this.files, this.finds, this.acts, failed, silent := files, finds, acts, {}, 0;
    }

    /** A file that mentions the function, if there is one. */
    method FindSourceFile(func: string) returns (file: Option<string>)
      modifies this`finds
      ensures finds == Behind(old(finds)) && file == FoundIn(files, old(finds))
    {
      file := FoundIn(files, finds);
      finds := Behind(finds);
    }

    method StubFunction(file: string, func: string) returns (r: Reply)
      requires file in files
      modifies this`files, this`acts
      ensures acts == Behind(old(acts))
      ensures match FirstAct(old(acts))
              case Write(text) => r == Stubbed(old(files[file])) && files == old(files)[file := text]
              case Refuse => r == Refused && files == old(files)
              case Throw => r == Threw && files == old(files)
    {
      var act := FirstAct(acts);
      acts := Behind(acts);
      match act {
        case Write(text) =>
          r := Stubbed(files[file]);
          files := files[file := text];
        case Refuse => r := Refused;
        case Throw => r := Threw;
      }
    }

    method BuildAndTest() returns (r: Run)
    {
      r := Passed;
      if * {
        r := Failed;
      } else if * {
        r := Aborted;
      }
    }

    method WriteBack(file: string, original: string) returns (ok: bool)
      requires file in files
      modifies this
      ensures files.Keys == old(files).Keys && (forall f :: f in files && f != file ==> files[f] == old(files[f]))
      ensures old(silent) <= silent && (silent > old(silent) ==> ok)
      ensures ok && silent == old(silent) ==> files[file] == original && failed == old(failed)
      ensures !ok || silent > old(silent) ==> failed == old(failed) + {file}
      ensures !ok ==> files == old(files)
    {
      ok := *;
      if !ok {
        failed := failed + {file};
      } else {
        var written: string := *;
        files := files[file := written];
        if written != original {
          failed, silent := failed + {file}, silent + 1;
        }
      }
    }
  }

  function Behind<T>(xs: seq<T>): seq<T> { if xs == [] then [] else xs[1..] }

  function FirstAct(acts: seq<Act>): Act { if acts == [] then Refuse else acts[0] }

  function FoundIn(files: Contents, finds: seq<Option<string>>): (file: Option<string>)
    ensures file.Some? ==> file.value in files
  {
    if finds == [] || finds[0].None? || finds[0].value !in files then None else finds[0]
  }

  /** All files but those in `except` have the content they had in `before`. */
  predicate Same(now: Contents, before: Contents, except: set<string>) {
    now.Keys == before.Keys && forall f :: f in now && f !in except ==> now[f] == before[f]
  }

  // ---------- The rewriter of the pruning check ----------

  /** The first content recorded for each file is the one it had at the start, and no other file has
      changed. */
  predicate Snapshots(saved: Contents, now: Contents, before: Contents) {
    Same(now, before, saved.Keys) && forall f :: f in saved ==> f in before && saved[f] == before[f]
  }

  datatype End = AllStubbed | GotRefusal | GotException

  datatype Written = Written(file: string, text: string)

  /** How a run of the generator ends: the files, what was in the touched ones, what was written to them. */
  datatype Trace = Trace(files: Contents, originals: Contents, writes: seq<Written>, end: End)

  /** The run for `n` more names. */
  function StubRun(n: nat, so: Trace, finds: seq<Option<string>>, acts: seq<Act>): Trace {
    if n == 0 then so.(end := AllStubbed)
    else
      var file := FoundIn(so.files, finds);
      if file.None? then StubRun(n - 1, so, Behind(finds), acts)
      else
        match FirstAct(acts)
        case Refuse => so.(end := GotRefusal)
        case Throw => so.(end := GotException)
        case Write(text) => StubRun(n - 1, AfterWrite(so, file.value, text), Behind(finds), Behind(acts))
  }

  function AfterWrite(so: Trace, file: string, text: string): Trace
    requires file in so.files
  {
    Trace(so.files[file := text], if file in so.originals then so.originals else so.originals[file := so.files[file]],
          so.writes + [Written(file, text)], so.end)
  }

  function Untouched(files: Contents): Trace { Trace(files, map[], [], AllStubbed) }

  function Overwritten(files: Contents, writes: seq<Written>): Contents {
    if writes == [] then files
    else var n := |writes| - 1; Overwritten(files, writes[..n])[writes[n].file := writes[n].text]
  }

  /** The trace belongs to a run that started from `before`. */
  ghost predicate Follow(so: Trace, before: Contents) {
    && Snapshots(so.originals, so.files, before) && so.files == Overwritten(before, so.writes)
    && (forall w :: w in so.writes ==> w.file in before)
  }

  lemma {:induction false} RunFollows(n: nat, so: Trace, finds: seq<Option<string>>, acts: seq<Act>, before: Contents)
    requires Follow(so, before)
    ensures Follow(StubRun(n, so, finds, acts), before)
  {
    hide Snapshots, Overwritten;
    if n > 0 {
      var file := FoundIn(so.files, finds);
      if file.None? {
        RunFollows(n - 1, so, Behind(finds), acts, before);
      } else if FirstAct(acts).Write? {
        hide Follow, AfterWrite;
        WriteFollows(so, file.value, FirstAct(acts).text, before);
        RunFollows(n - 1, AfterWrite(so, file.value, FirstAct(acts).text), Behind(finds), Behind(acts), before);
      }
    }
  }

  lemma WriteFollows(so: Trace, file: string, text: string, before: Contents)
    requires Follow(so, before) && file in so.files
    ensures Follow(AfterWrite(so, file, text), before)
  {
    var more := AfterWrite(so, file, text);
    assert more.writes[..|so.writes|] == so.writes;
  }

  /** Every file written to has got its old content as the last one. */
  predicate UndoneByItself(writes: seq<Written>, before: Contents) {
    forall i :: 0 <= i < |writes| && (forall j :: i < j < |writes| ==> writes[j].file != writes[i].file) ==>
      writes[i].file in before && writes[i].text == before[writes[i].file]
  }

  lemma {:induction false} LastWriteCounts(files: Contents, writes: seq<Written>, i: nat)
    requires i < |writes| && forall j :: i < j < |writes| ==> writes[j].file != writes[i].file
    ensures writes[i].file in Overwritten(files, writes) && Overwritten(files, writes)[writes[i].file] == writes[i].text
    decreases |writes|
  {
    var n := |writes| - 1;
    if i < n { LastWriteCounts(files, writes[..n], i); }
  }

  lemma {:induction false} OthersStay(files: Contents, writes: seq<Written>, f: string)
    requires forall w :: w in writes ==> w.file != f
    ensures f in Overwritten(files, writes) <==> f in files
    ensures f in files ==> Overwritten(files, writes)[f] == files[f]
    decreases |writes|
  {
    if writes != [] {
      var n := |writes| - 1;
      assert forall w :: w in writes[..n] ==> w in writes;
      assert writes[n] in writes;
      OthersStay(files, writes[..n], f);
    }
  }

  lemma {:induction false} LastWriteOf(writes: seq<Written>, f: string) returns (i: nat)
    requires exists w :: w in writes && w.file == f
    ensures i < |writes| && writes[i].file == f && forall j :: i < j < |writes| ==> writes[j].file != f
    decreases |writes|
  {
    var n := |writes| - 1;
    if writes[n].file == f {
      i := n;
    } else {
      var w :| w in writes && w.file == f;
      assert writes == writes[..n] + [writes[n]];
      i := LastWriteOf(writes[..n], f);
    }
  }

  /** Which runs leave the files as they were: those whose last write to every file puts its old content
      back, and so those that write nothing. */
  lemma UnchangedExactlyIf(before: Contents, writes: seq<Written>)
    requires forall w :: w in writes ==> w.file in before
    ensures Overwritten(before, writes) == before <==> UndoneByItself(writes, before)
  {
    var after := Overwritten(before, writes);
    if UndoneByItself(writes, before) {
      forall f
        ensures (f in after <==> f in before) && (f in before ==> after[f] == before[f])
      {
        if exists w :: w in writes && w.file == f {
          var i := LastWriteOf(writes, f);
          assert writes[i] in writes;
          LastWriteCounts(before, writes, i);
        } else {
          OthersStay(before, writes, f);
        }
      }
    } else {
      var i :| 0 <= i < |writes| && (forall j :: i < j < |writes| ==> writes[j].file != writes[i].file) &&
               !(writes[i].file in before && writes[i].text == before[writes[i].file]);
      assert writes[i] in writes;
      LastWriteCounts(before, writes, i);
    }
  }

  // What a run writes and how it ends can be read off the script, before it runs.

  /** The files the generator is called for, name by name. */
  function Calls(n: nat, before: Contents, finds: seq<Option<string>>): seq<string> {
    if n == 0 then []
    else
      var file := FoundIn(before, finds);
      (if file.None? then [] else [file.value]) + Calls(n - 1, before, Behind(finds))
  }

  /** The generator writes until it first does something else. */
  function Plan(calls: seq<string>, acts: seq<Act>): seq<Written> {
    if calls == [] || !FirstAct(acts).Write? then []
    else [Written(calls[0], FirstAct(acts).text)] + Plan(calls[1..], Behind(acts))
  }

  function PlanEnd(calls: seq<string>, acts: seq<Act>): End {
    if calls == [] then AllStubbed
    else
      match FirstAct(acts)
      case Refuse => GotRefusal
      case Throw => GotException
      case Write(_) => PlanEnd(calls[1..], Behind(acts))
  }

  lemma {:induction false} RunIsPlanned(n: nat, so: Trace, before: Contents, finds: seq<Option<string>>, acts: seq<Act>)
    requires so.files.Keys == before.Keys
    ensures var t, calls := StubRun(n, so, finds, acts), Calls(n, before, finds);
            t.writes == so.writes + Plan(calls, acts) && t.end == PlanEnd(calls, acts)
  {
    hide Plan, PlanEnd, AfterWrite;
    if n > 0 {
      var file, calls := FoundIn(so.files, finds), Calls(n - 1, before, Behind(finds));
      assert file == FoundIn(before, finds);
      NextCall(file, calls, acts, so.writes);
      if file.None? {
        RunIsPlanned(n - 1, so, before, Behind(finds), acts);
      } else if FirstAct(acts).Write? {
        OneWrite(so, file.value, FirstAct(acts).text);
        RunIsPlanned(n - 1, AfterWrite(so, file.value, FirstAct(acts).text), before, Behind(finds), Behind(acts));
      }
    } else {
      NextCall(None, [], acts, so.writes);
    }
  }

  lemma OneWrite(so: Trace, file: string, text: string)
    requires file in so.files
    ensures var more := AfterWrite(so, file, text);
            more.files.Keys == so.files.Keys && more.writes == so.writes + [Written(file, text)]
  {
  }

  lemma NextCall(file: Option<string>, more: seq<string>, acts: seq<Act>, done: seq<Written>)
    ensures Plan([], acts) == [] && done + [] == done && PlanEnd([], acts) == AllStubbed
    ensures var calls := (if file.None? then [] else [file.value]) + more;
            if file.None? then calls == more
            else
              match FirstAct(acts)
              case Write(text) =>
                && done + Plan(calls, acts) == (done + [Written(file.value, text)]) + Plan(more, Behind(acts))
                && PlanEnd(calls, acts) == PlanEnd(more, Behind(acts))
              case Refuse => Plan(calls, acts) == [] && PlanEnd(calls, acts) == GotRefusal
              case Throw => Plan(calls, acts) == [] && PlanEnd(calls, acts) == GotException
  {
    if file.Some? { assert ([file.value] + more)[1..] == more; }
  }

  lemma NothingFollows(before: Contents)
    ensures Follow(Untouched(before), before)
  {
  }

  /** An exception of the generator leaves what it has written so far, so that files are changed by it
      exactly if the script comes to a throw and the planned writes before it do not undo themselves. */
  lemma ExceptionLeavesStubs(n: nat, before: Contents, finds: seq<Option<string>>, acts: seq<Act>)
    ensures var t, calls := StubRun(n, Untouched(before), finds, acts), Calls(n, before, finds);
            && (t.end.GotException? <==> PlanEnd(calls, acts).GotException?)
            && (t.files == before <==> UndoneByItself(Plan(calls, acts), before))
  {
    hide StubRun, Calls, Plan, PlanEnd, UndoneByItself, Overwritten, Snapshots;
    NothingFollows(before);
    RunFollows(n, Untouched(before), finds, acts, before);
    RunIsPlanned(n, Untouched(before), before, finds, acts);
    var t := StubRun(n, Untouched(before), finds, acts);
    assert t.writes == Plan(Calls(n, before, finds), acts);
    UnchangedExactlyIf(before, t.writes);
  }

  /** No stub is what some file holds already. */
  predicate Changing(before: Contents, acts: seq<Act>) {
    forall a :: a in acts && a.Write? ==> a.text !in before.Values
  }

  /** The first name whose file is found gets a stub. */
  predicate WritesFirst(n: nat, before: Contents, finds: seq<Option<string>>, acts: seq<Act>) {
    FirstAct(acts).Write? && exists i :: 0 <= i < n && i < |finds| && finds[i].Some? && finds[i].value in before
  }

  lemma {:induction false} CalledIfFound(n: nat, before: Contents, finds: seq<Option<string>>)
    ensures Calls(n, before, finds) != [] <==> exists i :: 0 <= i < n && i < |finds| && finds[i].Some? && finds[i].value in before
    decreases n
  {
    if n > 0 {
      CalledIfFound(n - 1, before, Behind(finds));
      if FoundIn(before, finds).None? {
        forall i | 0 <= i < n && i < |finds| && finds[i].Some? && finds[i].value in before
          ensures Calls(n, before, finds) != []
        {
          assert i > 0 && Behind(finds)[i - 1] == finds[i];
        }
      } else {
        assert finds[0].Some? && finds[0].value in before;
      }
    }
  }

  /** With stubs that change what they replace, a throw leaves files changed exactly if the script comes to
      one and the first name whose file is found is stubbed before it. */
  lemma ThrowsChange(n: nat, before: Contents, finds: seq<Option<string>>, acts: seq<Act>)
    requires Changing(before, acts)
    ensures var t := StubRun(n, Untouched(before), finds, acts);
            && (t.files == before <==> !WritesFirst(n, before, finds, acts))
            && (t.end.GotException? && t.files != before <==>
                PlanEnd(Calls(n, before, finds), acts).GotException? && WritesFirst(n, before, finds, acts))
  {
    ExceptionLeavesStubs(n, before, finds, acts);
    CalledIfFound(n, before, finds);
    var calls := Calls(n, before, finds);
    var writes := Plan(calls, acts);
    PlanWritesActs(calls, acts);
    if writes != [] {
      var i := |writes| - 1;
      assert writes[i] in writes && !(writes[i].file in before && writes[i].text == before[writes[i].file]);
      assert !UndoneByItself(writes, before);
    }
  }

  lemma {:induction false} PlanWritesActs(calls: seq<string>, acts: seq<Act>)
    ensures forall w :: w in Plan(calls, acts) ==> Write(w.text) in acts
    decreases |calls|
  {
    if calls != [] && FirstAct(acts).Write? {
      PlanWritesActs(calls[1..], Behind(acts));
      assert acts[0] in acts && (forall a :: a in acts[1..] ==> a in acts);
    }
  }

  /** Such a run: two functions in one file, the first stubbed, the generator throwing at the second. */
  lemma StubLeftBehind()
    ensures var before: Contents := map["a.cpp" := "int f() { return 1; }"];
            var t := StubRun(2, Untouched(before), [Some("a.cpp"), Some("a.cpp")], [Write("stub"), Throw]);
            t.end == GotException && t.files == map["a.cpp" := "stub"] && t.files != before
  {
    var before: Contents := map["a.cpp" := "int f() { return 1; }"];
    var finds, acts := [Some("a.cpp"), Some("a.cpp")], [Write("stub"), Throw];
    var so := AfterWrite(Untouched(before), "a.cpp", "stub");
    assert before["a.cpp" := "stub"] == map["a.cpp" := "stub"] && "a.cpp" in so.files;
    assert Behind(finds) == [Some("a.cpp")] && Behind(acts) == [Throw];
    assert StubRun(1, so, [Some("a.cpp")], [Throw]) == so.(end := GotException);
    assert before["a.cpp"] != so.files["a.cpp"] by { assert |before["a.cpp"]| != |so.files["a.cpp"]|; }
  }

  datatype Rewrite = Rewrite(success: bool, originals: Contents, functions: seq<string>, skipped: nat)

  class StubRewriter {
    const world: World

    constructor (world: World)
      ensures this.world == world
    {
      this.world := world;
    }

    /** A refusal rolls everything back. An exception passes through, and leaves what was stubbed as it
        is: nothing here guards against it. */
    method StubFunctions(names: seq<string>) returns (r: Rewrite, threw: bool)
      modifies world
      ensures !threw && r.success ==> Snapshots(r.originals, world.files, old(world.files)) && world.failed == old(world.failed)
      ensures !threw && !r.success ==> Same(world.files, old(world.files), world.failed) && old(world.failed) <= world.failed
      ensures r.success ==> |r.functions| + r.skipped == |names|
      ensures old(world.silent) <= world.silent && (threw || r.success ==> world.silent == old(world.silent))
      ensures var t := StubRun(|names|, Untouched(old(world.files)), old(world.finds), old(world.acts));
              && threw == t.end.GotException? && r.success == t.end.AllStubbed?
              && (threw ==> r.originals == t.originals && world.files == t.files && world.failed == old(world.failed)
                            && Snapshots(r.originals, world.files, old(world.files)))
    {
      hide Snapshots, Follow;
      r, threw := Rewrite(true, map[], [], 0), false;
      ghost var so := Untouched(world.files);
      assert Follow(so, world.files) by { NothingFollows(world.files); }
      for i := 0 to |names|
        invariant r.success && !threw && world.failed == old(world.failed) && world.silent == old(world.silent)
        invariant so.files == world.files && so.originals == r.originals && Follow(so, old(world.files))
        invariant StubRun(|names| - i, so, world.finds, world.acts) ==
                  StubRun(|names|, Untouched(old(world.files)), old(world.finds), old(world.acts))
        invariant |r.functions| + r.skipped == i
      {
        var file := world.FindSourceFile(names[i]);
        if file.None? {
          r := r.(skipped := r.skipped + 1);
        } else {
          var reply := world.StubFunction(file.value, names[i]);
          if reply == Threw {
            FollowsSnapshots(so, old(world.files));
            return r.(success := false), true;
          }
          if reply == Refused {
            FollowsSnapshots(so, old(world.files));
            var _, bad := Restore(r.originals, old(world.files));
            SameBut(world.files, old(world.files), bad, world.failed);
            return Rewrite(false, map[], [], 0), false;
          }
          WriteFollows(so, file.value, world.files[file.value], old(world.files));
          so := AfterWrite(so, file.value, world.files[file.value]);
          if file.value !in r.originals {
            r := r.(originals := r.originals[file.value := reply.original]);
          }
          r := r.(functions := r.functions + [names[i]]);
        }
      }
      FollowsSnapshots(so, old(world.files));
    }

    lemma FollowsSnapshots(so: Trace, before: Contents)
      requires Follow(so, before)
      ensures Snapshots(so.originals, so.files, before)
    {
    }

    /** Writes every snapshot back; `bad` are the files it did not arrive in, which is noticed unless a write
        breaks off. */
    method Restore(originals: Contents, ghost before: Contents) returns (allOk: bool, ghost bad: set<string>)
      requires Snapshots(originals, world.files, before)
      modifies world
      ensures Same(world.files, before, bad) && world.failed == old(world.failed) + bad && old(world.silent) <= world.silent
      ensures if world.silent == old(world.silent) then allOk <==> bad == {} else bad != {}
    {
      allOk, bad := true, {};
      var left := originals.Keys;
      while left != {}
        invariant left <= originals.Keys && bad <= originals.Keys
        invariant Same(world.files, before, left + bad) && world.failed == old(world.failed) + bad
        invariant old(world.silent) <= world.silent
        invariant if world.silent == old(world.silent) then allOk <==> bad == {} else bad != {}
        decreases left
      {
        var path :| path in left;
        ghost var silent := world.silent;
        var ok := world.WriteBack(path, originals[path]);
        if !ok {
          allOk := false;
        }
        bad := if !ok || world.silent > silent then bad + {path} else bad;
        left := left - {path};
      }
    }
  }

  lemma SameTrans(c: Contents, b: Contents, a: Contents, x: set<string>, y: set<string>)
    requires Same(c, b, y) && Same(b, a, x) && x <= y
    ensures Same(c, a, y)
  {
  }

  lemma SameBut(c: Contents, a: Contents, x: set<string>, y: set<string>)
    requires Same(c, a, x) && x <= y
    ensures Same(c, a, y)
  {
  }

  // ---------- One stage, all stages ----------

  datatype StageResult = StageResult(compileSuccess: bool, testSuccess: bool, stubbed: seq<string>) {
    predicate Passed() { compileSuccess && testSuccess }
  }

  /** How a call came back. Only an exception out of the stub generator escapes the guard. */
  datatype Exit = Normal | StubThrew | RunThrew

  /** The state in which a stage was started, and how many functions it was to stub. */
  datatype Halt = Halt(names: nat, files: Contents, finds: seq<Option<string>>, acts: seq<Act>)

  class PruningOrchestrator {
    const world: World
    const rewriter: StubRewriter

    constructor (world: World)
      ensures this.world == world && this.rewriter.world == world
    {
      this.world := world;
      rewriter := new StubRewriter(world);
    }

    /** Stubs the functions of all lower stages, builds and tests, restores. Only files whose restore
        failed can differ afterwards, and a stage passes only if there are none, or none that were noticed. */
    method VerifyStage(toStub: seq<string>) returns (result: StageResult, exit: Exit)
      requires rewriter.world == world
      modifies world
      ensures exit != StubThrew ==> Same(world.files, old(world.files), world.failed) && old(world.failed) <= world.failed
      ensures old(world.silent) <= world.silent
      ensures exit == Normal && result.Passed() && world.silent == old(world.silent) ==> world.files == old(world.files) && world.failed == old(world.failed)
      ensures var t := StubRun(|toStub|, Untouched(old(world.files)), old(world.finds), old(world.acts));
              && (exit == StubThrew <==> t.end.GotException?)
              && (exit == StubThrew ==> world.files == t.files && world.failed == old(world.failed)
                                        && Same(world.files, old(world.files), t.originals.Keys))
    {
      hide StubRun;
      result, exit := StageResult(false, false, []), Normal;
      if toStub == [] {
        NothingToStub(world);
        return StageResult(true, true, []), Normal;
      }
      var rewrite, threw := rewriter.StubFunctions(toStub);
      if threw {
        return result, StubThrew;
      }
      if !rewrite.success {
        return;
      }
      var run := world.BuildAndTest();
      var restoreOk, bad := rewriter.Restore(rewrite.originals, old(world.files));
      SameBut(world.files, old(world.files), bad, world.failed);
      if run == Aborted {
        return result, RunThrew;
      }
      var success := run == Passed && restoreOk;
      result := StageResult(success, success, rewrite.functions);
    }

    lemma NothingToStub(w: World)
      ensures StubRun(0, Untouched(w.files), w.finds, w.acts).end.AllStubbed?
    {
    }

    /** One result per stage, in order. When the generator throws, the stages before have left the files as
        they were, up to failed restores, and the stage at hand is left as its run of the generator goes. */
    method VerifyAllStages(stages: seq<seq<string>>)
      returns (results: seq<StageResult>, passCount: nat, failCount: nat, exit: Exit, ghost last: Halt)
      requires rewriter.world == world
      modifies world
      ensures exit != StubThrew ==> Same(world.files, old(world.files), world.failed) && old(world.failed) <= world.failed
      ensures old(world.silent) <= world.silent
      ensures exit == Normal ==> |results| == |stages| && passCount + failCount == |stages|
      ensures passCount == |set i | 0 <= i < |results| && results[i].Passed()|
      ensures exit == Normal && failCount == 0 && world.silent == old(world.silent) ==> world.files == old(world.files)
      ensures exit == StubThrew ==>
                var t := StubRun(last.names, Untouched(last.files), last.finds, last.acts);
                && Same(last.files, old(world.files), world.failed) && old(world.failed) <= world.failed
                && |results| < |stages| && last.names == |stages[|results|]|
                && t.end.GotException? && world.files == t.files
    {
      hide StubRun;
      results, passCount, failCount, exit := [], 0, 0, Normal;
      last := Halt(0, world.files, world.finds, world.acts);
      for i := 0 to |stages|
        invariant exit == Normal && |results| == i && passCount + failCount == i
        invariant passCount == |set k | 0 <= k < |results| && results[k].Passed()|
        invariant old(world.silent) <= world.silent
        invariant Same(world.files, old(world.files), world.failed) && old(world.failed) <= world.failed
        invariant failCount == 0 && world.silent == old(world.silent) ==> world.files == old(world.files)
      {
        label before:
        var r;
        last := Halt(|stages[i]|, world.files, world.finds, world.acts);
        r, exit := VerifyStage(stages[i]);
        if exit == StubThrew {
          return;
        }
        SameTrans(world.files, old@before(world.files), old(world.files), old@before(world.failed), world.failed);
        if exit != Normal {
          return;
        }
        CountOneMore(results, r);
        if r.Passed() {
          passCount := passCount + 1;
        } else {
          failCount := failCount + 1;
        }
        results := results + [r];
      }
    }
  }

  lemma CountOneMore(rs: seq<StageResult>, r: StageResult)
    ensures |set k | 0 <= k < |rs + [r]| && (rs + [r])[k].Passed()| ==
            |set k | 0 <= k < |rs| && rs[k].Passed()| + if r.Passed() then 1 else 0
  {
    var old_, all := set k | 0 <= k < |rs| && rs[k].Passed(), set k | 0 <= k < |rs + [r]| && (rs + [r])[k].Passed();
    assert forall k :: 0 <= k < |rs| ==> (rs + [r])[k] == rs[k];
    assert all == old_ + if r.Passed() then {|rs|} else {};
  }

  // ---------- Branches of a pipeline ----------

  datatype Edge = Edge(source: string, target: string)

  /** `p` follows edges. */
  predicate Follows(edges: seq<Edge>, p: seq<string>) {
    p != [] && forall i :: 0 <= i < |p| - 1 ==> Edge(p[i], p[i + 1]) in edges
  }

  ghost predicate Branch(edges: seq<Edge>, root: string, f: string) {
    exists p :: Follows(edges, p) && p[0] == root && p[|p| - 1] == f
  }

  function Targets(edges: seq<Edge>): set<string> { set e | e in edges :: e.target }

  /** The functions reachable from `root`, by a walk over a stack that may hold a name twice. */
  method CollectBranch(edges: seq<Edge>, root: string) returns (branch: set<string>)
    ensures forall f :: f in branch <==> Branch(edges, root, f)
  {
    branch := {};
    var queue := [root];
    ghost var all := Targets(edges) + {root};
    assert Follows(edges, [root]);
    assert Branch(edges, root, root);
    while queue != []
      invariant branch <= all && (forall f :: f in queue ==> f in all)
      invariant forall f :: f in branch || f in queue ==> Branch(edges, root, f)
      invariant root in branch || root in queue
      invariant forall e :: e in edges && e.source in branch ==> e.target in branch || e.target in queue
      decreases all - branch, |queue|
    {
      var cur := queue[|queue| - 1];
      var rest := queue[..|queue| - 1];
      assert queue == rest + [cur];
      if cur in branch {
        queue := rest;
      } else {
        branch := branch + {cur};
        queue := PushTargets(edges, root, cur, branch, rest);
      }
    }
    Closed(edges, root, branch);
  }

  method PushTargets(edges: seq<Edge>, root: string, cur: string, branch: set<string>, queue0: seq<string>) returns (queue: seq<string>)
    requires Branch(edges, root, cur)
    ensures forall f :: f in queue0 ==> f in queue
    ensures forall f :: f in queue ==> f in queue0 || (Edge(cur, f) in edges && Branch(edges, root, f))
    ensures forall e :: e in edges && e.source == cur ==> e.target in branch || e.target in queue
  {
    queue := queue0;
    for i := 0 to |edges|
      invariant forall f :: f in queue0 ==> f in queue
      invariant forall f :: f in queue ==> f in queue0 || (Edge(cur, f) in edges && Branch(edges, root, f))
      invariant forall k :: 0 <= k < i && edges[k].source == cur ==> edges[k].target in branch || edges[k].target in queue
    {
      if edges[i].source == cur && edges[i].target !in branch {
        OneFurther(edges, root, cur, edges[i].target);
        queue := queue + [edges[i].target];
      }
    }
  }

  lemma OneFurther(edges: seq<Edge>, root: string, cur: string, next: string)
    requires Branch(edges, root, cur) && Edge(cur, next) in edges
    ensures Branch(edges, root, next)
  {
    var p :| Follows(edges, p) && p[0] == root && p[|p| - 1] == cur;
    assert Follows(edges, p + [next]);
  }

  lemma Closed(edges: seq<Edge>, root: string, branch: set<string>)
    requires root in branch && forall e :: e in edges && e.source in branch ==> e.target in branch
    ensures forall f :: Branch(edges, root, f) ==> f in branch
  {
    forall f | Branch(edges, root, f)
      ensures f in branch
    {
      var p :| Follows(edges, p) && p[0] == root && p[|p| - 1] == f;
      StaysInside(edges, branch, p, |p| - 1);
    }
  }

  lemma {:induction false} StaysInside(edges: seq<Edge>, branch: set<string>, p: seq<string>, k: nat)
    requires Follows(edges, p) && p[0] in branch && k < |p|
    requires forall e :: e in edges && e.source in branch ==> e.target in branch
    ensures p[k] in branch
  {
    if k > 0 {
      StaysInside(edges, branch, p, k - 1);
      assert Edge(p[k - 1], p[k]) in edges;
    }
  }

  // ---------- The branch check ----------

  datatype Stub = Stub(file: string, original: string)

  function StubFiles(stubs: seq<Stub>): set<string> { set s | s in stubs :: s.file }

  /** The first stub of each file recorded what was in it at the start. */
  predicate FirstSnapshots(stubs: seq<Stub>, now: Contents, before: Contents) {
    Same(now, before, StubFiles(stubs)) &&
    forall i :: 0 <= i < |stubs| ==> stubs[i].file in before && (stubs[i].file !in StubFiles(stubs[..i]) ==> stubs[i].original == before[stubs[i].file])
  }

  datatype BranchResult = BranchResult(success: bool)

  // ---------- What is tested ----------

  datatype LogicBlock = LogicBlock(isPipeline: bool, called: seq<string>, stages: seq<int>, edges: seq<Edge>)

  /** A function or branch root, what was stubbed for it, and whether build and test went well. */
  datatype Test = Test(name: string, stubbed: seq<string>, success: bool)

  function Functions(tests: seq<Test>): (r: seq<string>)
    ensures |r| == |tests|
  {
    seq(|tests|, i requires 0 <= i < |tests| => tests[i].name)
  }

  function Passes(tests: seq<Test>): (n: nat)
    ensures n <= |tests|
  {
    if tests == [] then 0 else Passes(tests[..|tests| - 1]) + if tests[|tests| - 1].success then 1 else 0
  }

  lemma FunctionsMore(tests: seq<Test>, t: Test)
    ensures Functions(tests + [t]) == Functions(tests) + [t.name]
    ensures Passes(tests + [t]) == Passes(tests) + if t.success then 1 else 0
  {
    assert (tests + [t])[..|tests|] == tests;
  }

  lemma NoTests()
    ensures Passes([]) == 0 && Functions([]) == []
  {
  }

  lemma {:induction false} PassesJoin(a: seq<Test>, b: seq<Test>)
    ensures Passes(a + b) == Passes(a) + Passes(b) && Functions(a + b) == Functions(a) + Functions(b)
    decreases |b|
  {
    hide Passes, Functions;
    if b == [] {
      assert a + b == a;
      NoTests();
    } else {
      var n := |b| - 1;
      PassesJoin(a, b[..n]);
      assert a + b == (a + b[..n]) + [b[n]] && b == b[..n] + [b[n]];
      FunctionsMore(a + b[..n], b[n]);
      FunctionsMore(b[..n], b[n]);
    }
  }

  function StageOf(b: LogicBlock, i: nat): int { if i < |b.stages| then b.stages[i] else 0 }

  /** The called functions of one stage, in order. */
  function InStage(b: LogicBlock, stage: int, n: nat): seq<string>
    requires n <= |b.called|
  {
    if n == 0 then [] else InStage(b, stage, n - 1) + if StageOf(b, n - 1) == stage then [b.called[n - 1]] else []
  }

  function InsertStage(stage: int, stages: seq<int>): seq<int> {
    if stages == [] then [stage]
    else if stage < stages[0] then [stage] + stages
    else if stage == stages[0] then stages
    else [stages[0]] + InsertStage(stage, stages[1..])
  }

  /** The stages in use, ascending. */
  function StagesOf(b: LogicBlock, n: nat): seq<int>
    requires n <= |b.called|
  {
    if n == 0 then [] else InsertStage(StageOf(b, n - 1), StagesOf(b, n - 1))
  }

  /** The functions that share one of these stages with another one. */
  function Sharing(b: LogicBlock, stages: seq<int>): seq<string> {
    if stages == [] then []
    else
      var group := InStage(b, stages[0], |b.called|);
      (if |group| < 2 then [] else group) + Sharing(b, stages[1..])
  }

  function IsolationTests(blocks: seq<LogicBlock>): seq<string> {
    if blocks == [] then []
    else
      var n := |blocks| - 1;
      IsolationTests(blocks[..n]) + if blocks[n].isPipeline then [] else Sharing(blocks[n], StagesOf(blocks[n], |blocks[n].called|))
  }

  /** The called functions no edge leads to. */
  function Sources(edges: seq<Edge>, called: seq<string>): seq<string> {
    if called == [] then [] else (if called[0] in Targets(edges) then [] else [called[0]]) + Sources(edges, called[1..])
  }

  /** A single root makes a single branch, and there is nothing to test. */
  function BranchRoots(b: LogicBlock): seq<string> {
    var sources := Sources(b.edges, b.called);
    if !b.isPipeline || |sources| < 2 then [] else sources
  }

  function IndependenceTests(blocks: seq<LogicBlock>): seq<string> {
    if blocks == [] then [] else IndependenceTests(blocks[..|blocks| - 1]) + BranchRoots(blocks[|blocks| - 1])
  }

  /** The elements of a set, in some order. */
  method Listing(s: set<string>) returns (r: seq<string>)
    ensures forall x :: x in r <==> x in s
  {
    r := [];
    var left := s;
    while left != {}
      invariant left <= s && forall x :: x in r <==> x in s && x !in left
      decreases left
    {
      var x :| x in left;
      r := r + [x];
      left := left - {x};
    }
  }

  class VerificationOrchestrator {
    const world: World

    constructor (world: World)
      ensures this.world == world
    {
      this.world := world;
    }

    /** Writes back once per file, from its first stub: later ones recorded content that was already
        stubbed. */
    method RestoreAll(stubs: seq<Stub>, ghost before: Contents) returns (allOk: bool, ghost bad: set<string>)
      requires FirstSnapshots(stubs, world.files, before)
      modifies world
      ensures Same(world.files, before, bad) && world.failed == old(world.failed) + bad && old(world.silent) <= world.silent
      ensures if world.silent == old(world.silent) then allOk <==> bad == {} else bad != {}
    {
      hide FirstSnapshots, StubFiles;
      allOk, bad := true, {};
      var restored: set<string> := {};
      ghost var all := StubFiles(stubs);
      NoStubs(stubs, world.files, before);
      for i := 0 to |stubs|
        invariant restored == StubFiles(stubs[..i]) && bad <= restored
        invariant Same(world.files, before, (all - restored) + bad)
        invariant world.failed == old(world.failed) + bad
        invariant old(world.silent) <= world.silent
        invariant if world.silent == old(world.silent) then allOk <==> bad == {} else bad != {}
      {
        StubAt(stubs, i, old(world.files), before);
        if stubs[i].file !in restored {
          restored := restored + {stubs[i].file};
          ghost var silent := world.silent;
          var ok := world.WriteBack(stubs[i].file, stubs[i].original);
          if !ok {
            allOk := false;
          }
          bad := if !ok || world.silent > silent then bad + {stubs[i].file} else bad;
        }
      }
    }

    method StubBranch(funcs: seq<string>) returns (stubs: seq<Stub>, reply: Option<Reply>)
      modifies world`files, world`finds, world`acts
      ensures FirstSnapshots(stubs, world.files, old(world.files))
      ensures reply.Some? ==> !reply.value.Stubbed?
    {
      stubs, reply := [], None;
      assert StubFiles([]) == {};
      for i := 0 to |funcs|
        invariant FirstSnapshots(stubs, world.files, old(world.files)) && reply.None?
      {
        var file := world.FindSourceFile(funcs[i]);
        if file.Some? {
          label before:
          var r := world.StubFunction(file.value, funcs[i]);
          if !r.Stubbed? {
            return stubs, Some(r);
          }
          MoreStubs(stubs, Stub(file.value, r.original), world.files, old@before(world.files), old(world.files));
          stubs := stubs + [Stub(file.value, r.original)];
        }
      }
    }

    /** Whatever happens, an exception from the stub generator or the build included, only files whose
        restore failed can differ afterwards, and a branch passes only if there are none, or none that were
        noticed. */
    method VerifyBranch(funcs: seq<string>) returns (result: BranchResult, threw: bool)
      modifies world
      ensures Same(world.files, old(world.files), world.failed) && old(world.failed) <= world.failed && old(world.silent) <= world.silent
      ensures !threw && result.success && world.silent == old(world.silent) ==> world.files == old(world.files) && world.failed == old(world.failed)
    {
      result, threw := BranchResult(false), false;
      var stubs, reply := StubBranch(funcs);
      var run := Failed;
      if reply.None? {
        run := world.BuildAndTest();
      }
      var restoreOk, bad := RestoreAll(stubs, old(world.files));
      SameBut(world.files, old(world.files), bad, world.failed);
      threw := run == Aborted || reply == Some(Threw);
      result := BranchResult(run == Passed && restoreOk);
    }

    /** Stubs one function alone. */
    method VerifyAlone(func: string) returns (success: bool, threw: bool)
      modifies world
      ensures Same(world.files, old(world.files), world.failed) && old(world.failed) <= world.failed && old(world.silent) <= world.silent
      ensures !threw && success && world.silent == old(world.silent) ==> world.files == old(world.files) && world.failed == old(world.failed)
    {
      success, threw := false, false;
      var file := world.FindSourceFile(func);
      if file.None? {
        return;
      }
      var reply := world.StubFunction(file.value, func);
      if !reply.Stubbed? {
        return false, reply.Threw?;
      }
      var run := world.BuildAndTest();
      var restoreOk := world.WriteBack(file.value, reply.original);
      if run == Aborted {
        return false, true;
      }
      success := run == Passed && restoreOk;
    }

    /** All stages of all blocks that are no pipelines: every function of a stage that has more than one is
        stubbed on its own. */
    method VerifyStageIsolation(blocks: seq<LogicBlock>) returns (tests: seq<Test>, passCount: nat, failCount: nat, threw: bool)
      modifies world
      ensures Same(world.files, old(world.files), world.failed) && old(world.failed) <= world.failed && old(world.silent) <= world.silent
      ensures !threw ==> Functions(tests) == IsolationTests(blocks) && passCount == Passes(tests) && passCount + failCount == |tests|
      ensures !threw && failCount == 0 && world.silent == old(world.silent) ==> world.files == old(world.files)
    {
      tests, passCount, failCount, threw := [], 0, 0, false;
      var todo := IsolationTests(blocks);
      for i := 0 to |todo|
        invariant Functions(tests) == todo[..i] && passCount == Passes(tests) && passCount + failCount == |tests|
        invariant old(world.silent) <= world.silent
        invariant Same(world.files, old(world.files), world.failed) && old(world.failed) <= world.failed && !threw
        invariant failCount == 0 && world.silent == old(world.silent) ==> world.files == old(world.files)
      {
        label before:
        var success;
        success, threw := VerifyAlone(todo[i]);
        SameTrans(world.files, old@before(world.files), old(world.files), old@before(world.failed), world.failed);
        if threw {
          return;
        }
        FunctionsMore(tests, Test(todo[i], [todo[i]], success));
        assert todo[..i + 1] == todo[..i] + [todo[i]];
        tests := tests + [Test(todo[i], [todo[i]], success)];
        if success {
          passCount := passCount + 1;
        } else {
          failCount := failCount + 1;
        }
      }
      assert todo[..|todo|] == todo;
    }

    /** All branches of one pipeline: from each function no edge leads to, everything reachable is stubbed
        together. */
    method VerifyBranches(block: LogicBlock) returns (tests: seq<Test>, threw: bool)
      modifies world
      ensures Same(world.files, old(world.files), world.failed) && old(world.failed) <= world.failed && old(world.silent) <= world.silent
      ensures !threw ==> Functions(tests) == BranchRoots(block)
      ensures forall t :: t in tests ==> forall f :: f in t.stubbed <==> Branch(block.edges, t.name, f)
      ensures !threw && Passes(tests) == |tests| && world.silent == old(world.silent) ==> world.files == old(world.files)
    {
      tests, threw := [], false;
      var roots := BranchRoots(block);
      for i := 0 to |roots|
        invariant Functions(tests) == roots[..i] && !threw
        invariant forall t :: t in tests ==> forall f :: f in t.stubbed <==> Branch(block.edges, t.name, f)
        invariant old(world.silent) <= world.silent
        invariant Same(world.files, old(world.files), world.failed) && old(world.failed) <= world.failed
        invariant Passes(tests) <= |tests| && (Passes(tests) == |tests| && world.silent == old(world.silent) ==> world.files == old(world.files))
      {
        label before:
        var branch := CollectBranch(block.edges, roots[i]);
        var funcs := Listing(branch);
        var result;
        result, threw := VerifyBranch(funcs);
        SameTrans(world.files, old@before(world.files), old(world.files), old@before(world.failed), world.failed);
        if threw {
          return;
        }
        FunctionsMore(tests, Test(roots[i], funcs, result.success));
        assert roots[..i + 1] == roots[..i] + [roots[i]];
        tests := tests + [Test(roots[i], funcs, result.success)];
      }
      assert roots[..|roots|] == roots;
    }

    /** The whole check: every branch of every pipeline with more than one root is tested, in order, and
        whatever fails or throws, only files whose restore failed can differ afterwards. */
    method VerifyPipelineIndependence(blocks: seq<LogicBlock>) returns (tests: seq<Test>, passCount: nat, failCount: nat, threw: bool)
      modifies world
      ensures Same(world.files, old(world.files), world.failed) && old(world.failed) <= world.failed && old(world.silent) <= world.silent
      ensures !threw ==> Functions(tests) == IndependenceTests(blocks) && passCount == Passes(tests) && passCount + failCount == |tests|
      ensures forall t :: t in tests ==> exists b :: b in blocks && forall f :: f in t.stubbed <==> Branch(b.edges, t.name, f)
      ensures !threw && failCount == 0 && world.silent == old(world.silent) ==> world.files == old(world.files)
    {
      tests, passCount, failCount, threw := [], 0, 0, false;
      for i := 0 to |blocks|
        invariant Functions(tests) == IndependenceTests(blocks[..i]) && passCount == Passes(tests) && passCount + failCount == |tests| && !threw
        invariant forall t :: t in tests ==> exists b :: b in blocks && forall f :: f in t.stubbed <==> Branch(b.edges, t.name, f)
        invariant old(world.silent) <= world.silent
        invariant Same(world.files, old(world.files), world.failed) && old(world.failed) <= world.failed
        invariant failCount == 0 && world.silent == old(world.silent) ==> world.files == old(world.files)
      {
        label before:
        assert blocks[..i + 1][..i] == blocks[..i];
        var more;
        more, threw := VerifyBranches(blocks[i]);
        SameTrans(world.files, old@before(world.files), old(world.files), old@before(world.failed), world.failed);
        if threw {
          return;
        }
        PassesJoin(tests, more);
        tests := tests + more;
        passCount := passCount + Passes(more);
        failCount := failCount + (|more| - Passes(more));
      }
      assert blocks[..|blocks|] == blocks;
    }
  }

  lemma NoStubs(stubs: seq<Stub>, now: Contents, before: Contents)
    requires FirstSnapshots(stubs, now, before)
    ensures StubFiles(stubs[..0]) == {} && StubFiles(stubs[..|stubs|]) == StubFiles(stubs) && Same(now, before, StubFiles(stubs))
  {
    assert stubs[..|stubs|] == stubs;
  }

  lemma StubAt(stubs: seq<Stub>, i: nat, now: Contents, before: Contents)
    requires FirstSnapshots(stubs, now, before) && i < |stubs|
    ensures StubFiles(stubs[..i + 1]) == StubFiles(stubs[..i]) + {stubs[i].file} && stubs[i].file in StubFiles(stubs)
    ensures stubs[i].file in before && (stubs[i].file !in StubFiles(stubs[..i]) ==> stubs[i].original == before[stubs[i].file])
  {
    assert stubs[..i + 1] == stubs[..i] + [stubs[i]];
  }

  lemma MoreStubs(stubs: seq<Stub>, s: Stub, now: Contents, mid: Contents, before: Contents)
    requires FirstSnapshots(stubs, mid, before) && s.file in mid && s.original == mid[s.file] && Same(now, mid, {s.file})
    ensures FirstSnapshots(stubs + [s], now, before)
  {
    var more := stubs + [s];
    assert StubFiles(more) == StubFiles(stubs) + {s.file};
    forall i | 0 <= i < |more|
      ensures more[i].file in before && (more[i].file !in StubFiles(more[..i]) ==> more[i].original == before[more[i].file])
    {
      assert more[..i] == stubs[..i];
      if i == |stubs| { assert stubs[..i] == stubs; }
    }
  }
}
