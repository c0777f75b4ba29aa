/** Exactly the files a pattern stands for. */
module GlobResults {
  // In order and once each.

  import opened Options
  import opened FileGlob
  import Sorting

  // ---------- What is collected is what matches ----------

  function PathText(at: string, path: seq<string>): string
    decreases |path|
  {
    if path == [] then at else PathText(Join(at, path[0]), path[1..])
  }

  lemma TextSteps(at: string, name: string, path: seq<string>)
    ensures PathText(at, [name] + path) == PathText(Join(at, name), path)
  {
    assert ([name] + path)[1..] == path;
  }

  /** Every collected string is the text of a matching path. */
  lemma {:induction false} CollectedMatches(at: string, e: Entry, comps: seq<string>, s: string) returns (path: seq<string>)
    requires WellFormed(e) && s in Collect(at, e, comps)
    ensures Matches(e, comps, path) && s == PathText(at, path)
    decreases |comps|, e, 2
  {
    if comps[0] == "**" {
      assert comps == ["**"] + comps[1..];
      if e.Dir? && s in Walk(at, e.children, comps) {
        path := WalkedMatches(at, e, e.children, comps, s);
      } else {
        path := CollectedMatches(at, e, comps[1..], s);
        StarStar(e, comps[1..], path);
      }
    } else if |comps| == 1 {
      path := NamedMatches(at, e, Listing(e), comps[0], s);
    } else {
      LookupIsWellFormed(Listing(e), comps[0]);
      var next := Follow(Lookup(Listing(e), comps[0]).value);
      var more := CollectedMatches(Join(at, comps[0]), next, comps[1..], s);
      path := [comps[0]] + more;
      assert path[1..] == more;
    }
  }

  /** `cs` is a tail of the listing of `e`. */
  predicate TailOf(cs: seq<Child>, e: Entry) {
    |cs| <= |Listing(e)| && cs == Listing(e)[|Listing(e)| - |cs|..]
  }

  lemma {:induction false} LookupInTail(all: seq<Child>, k: nat)
    requires Distinct(all) && k < |all|
    ensures Lookup(all, all[k].name) == Some(all[k].entry)
    decreases |all|
  {
    if k > 0 {
      LookupInTail(all[1..], k - 1);
    }
  }

  lemma TailStarts(cs: seq<Child>, e: Entry)
    requires cs != [] && TailOf(cs, e) && Distinct(Listing(e))
    ensures Lookup(Listing(e), cs[0].name) == Some(cs[0].entry) && TailOf(cs[1..], e)
  {
    LookupInTail(Listing(e), |Listing(e)| - |cs|);
  }

  lemma {:induction false} NamedMatches(at: string, e: Entry, cs: seq<Child>, pattern: string, s: string) returns (path: seq<string>)
    requires Distinct(Listing(e)) && TailOf(cs, e) && s in Names(at, cs, pattern) && pattern != "**"
    ensures Matches(e, [pattern], path) && s == PathText(at, path)
    decreases |cs|
  {
    TailStarts(cs, e);
    if Follow(cs[0].entry).File? && MatchFilename(cs[0].name, pattern) && s == Join(at, cs[0].name) {
      path := [cs[0].name];
      assert path[1..] == [];
    } else {
      path := NamedMatches(at, e, cs[1..], pattern, s);
    }
  }

  lemma {:induction false} WalkedMatches(at: string, e: Entry, cs: seq<Child>, comps: seq<string>, s: string) returns (path: seq<string>)
    requires WellFormed(e) && e.Dir? && TailOf(cs, e) && comps != [] && comps[0] == "**" && s in Walk(at, cs, comps)
    requires AllWellFormed(cs)
    ensures Matches(e, comps, path) && s == PathText(at, path)
    decreases |comps|, cs, 1
  {
    TailStarts(cs, e);
    var rest := comps[1..];
    assert comps == ["**"] + rest;
    var name, child := cs[0].name, cs[0].entry;
    if child.Dir? && s in Collect(Join(at, name), child, comps) {
      var more := CollectedMatches(Join(at, name), child, comps, s);
      path := [name] + more;
      assert path[1..] == more;
      StarStar(e, rest, path);
    } else if |comps| == 1 && child.File? && s == Join(at, name) {
      path := [name];
      assert path[1..] == [];
      StarStar(e, rest, path);
    } else {
      path := WalkedMatches(at, e, cs[1..], comps, s);
    }
  }

  /** Every matching path is collected. */
  lemma {:induction false} MatchesCollected(at: string, e: Entry, comps: seq<string>, path: seq<string>)
    requires Matches(e, comps, path)
    ensures PathText(at, path) in Collect(at, e, comps)
    decreases |comps|, |path|
  {
    if comps[0] == "**" {
      var rest := comps[1..];
      assert comps == ["**"] + rest;
      StarStar(e, rest, path);
      if Matches(e, rest, path) {
        MatchesCollected(at, e, rest, path);
      } else if path != [] && StepsDown(e, path[0]) && Matches(Lookup(Listing(e), path[0]).value, comps, path[1..]) {
        MatchesCollected(Join(at, path[0]), Lookup(Listing(e), path[0]).value, comps, path[1..]);
        WalkReaches(at, e.children, comps, path[0], PathText(at, path));
      } else {
        assert path[1..] == [];
        WalkReaches(at, e.children, comps, path[0], PathText(at, path));
      }
    } else if |comps| == 1 {
      assert path[1..] == [];
      NamesReach(at, Listing(e), comps[0], path[0]);
    } else {
      MatchesCollected(Join(at, path[0]), Follow(Lookup(Listing(e), path[0]).value), comps[1..], path[1..]);
    }
  }

  lemma {:induction false} WalkReaches(at: string, cs: seq<Child>, comps: seq<string>, name: string, s: string)
    requires comps != [] && Lookup(cs, name).Some?
    requires var child := Lookup(cs, name).value;
             if child.Dir? then s in Collect(Join(at, name), child, comps)
             else |comps| == 1 && child.File? && s == Join(at, name)
    ensures s in Walk(at, cs, comps)
  {
    if cs[0].name != name {
      WalkReaches(at, cs[1..], comps, name, s);
    }
  }

  lemma {:induction false} NamesReach(at: string, cs: seq<Child>, pattern: string, name: string)
    requires Lookup(cs, name).Some? && Follow(Lookup(cs, name).value).File? && MatchFilename(name, pattern)
    ensures Join(at, name) in Names(at, cs, pattern)
  {
    if cs[0].name != name {
      NamesReach(at, cs[1..], pattern, name);
    }
  }

  // ---------- Sorting and dropping duplicates ----------

  predicate Ascending(ss: seq<string>) {
    Sorting.Ascending(Sorting.Less, ss)
  }

  /** Sorting with equal neighbours dropped. */
  function Insert(s: string, ss: seq<string>): seq<string> {
    if ss == [] then [s] else if Sorting.Less(s, ss[0]) then [s] + ss else if s == ss[0] then ss else [ss[0]] + Insert(s, ss[1..])
  }

  function SortUnique(ss: seq<string>): seq<string> {
    if ss == [] then [] else Insert(ss[0], SortUnique(ss[1..]))
  }

  lemma {:induction false} InsertKeepsOrder(s: string, ss: seq<string>)
    requires Ascending(ss)
    ensures Ascending(Insert(s, ss)) && (forall x :: x in Insert(s, ss) <==> x == s || x in ss)
    ensures ss != [] ==> Insert(s, ss)[0] == s || Insert(s, ss)[0] == ss[0]
  {
    if ss != [] && !Sorting.Less(s, ss[0]) && s != ss[0] {
      Sorting.LessIsTotal(s, ss[0]);
      InsertKeepsOrder(s, ss[1..]);
      var r := Insert(s, ss);
      assert r[1..] == Insert(s, ss[1..]);
      assert forall x :: x in ss <==> x == ss[0] || x in ss[1..];
      assert |ss| > 1 ==> ss[1..][0] == ss[1];
    }
  }

  lemma {:induction false} SortUniqueSorts(ss: seq<string>)
    ensures Ascending(SortUnique(ss)) && (forall x :: x in SortUnique(ss) <==> x in ss)
  {
    if ss != [] {
      SortUniqueSorts(ss[1..]);
      InsertKeepsOrder(ss[0], SortUnique(ss[1..]));
      assert forall x :: x in ss <==> x == ss[0] || x in ss[1..];
    }
  }

  // ---------- The whole expansion ----------

  predicate HasWildcard(comps: seq<string>) {
    comps != [] && ('*' in comps[0] || HasWildcard(comps[1..]))
  }

  /** A path without wildcards, links followed. */
  predicate Exists(e: Entry, comps: seq<string>)
    decreases |comps|
  {
    comps == [] || (Lookup(Listing(Follow(e)), comps[0]).Some? && Exists(Lookup(Listing(Follow(e)), comps[0]).value, comps[1..]))
  }

  function SplitComponents(parts: seq<string>): seq<string> {
    if parts == [] then [] else (if parts[0] == "" || parts[0] == "." then [] else [parts[0]]) + SplitComponents(parts[1..])
  }

  // What that comes to, without these functions.

  /** The parts that are neither empty nor a dot, in order. */
  ghost predicate Keeps(parts: seq<string>, comps: seq<string>) {
    exists at: seq<nat> :: Places(parts, comps, at)
  }

  ghost predicate Places(parts: seq<string>, comps: seq<string>, at: seq<nat>) {
    && |at| == |comps| && (forall i, j :: 0 <= i < j < |at| ==> at[i] < at[j])
    && (forall i :: 0 <= i < |at| ==> at[i] < |parts| && comps[i] == parts[at[i]])
    && (forall k :: 0 <= k < |parts| ==> (k in at <==> parts[k] != "" && parts[k] != "."))
  }

  /** Each name in turn is found in the directory reached so far, links followed. */
  ghost predicate Leads(e: Entry, comps: seq<string>) {
    exists way: seq<Entry> :: Way(e, comps, way)
  }

  ghost predicate Way(e: Entry, comps: seq<string>, way: seq<Entry>) {
    && |way| == |comps| + 1 && way[0] == e
    && forall i :: 0 <= i < |comps| ==> Follow(way[i]).Dir? && Child(comps[i], way[i + 1]) in Follow(way[i]).children
  }

  /** With a star in any part the files the pattern stands for, in ascending order; without one the path itself,
      if it leads anywhere. */
  ghost predicate Expands(base: string, e: Entry, parts: seq<string>, comps: seq<string>, literal: string, result: seq<string>) {
    if exists k :: 0 <= k < |parts| && '*' in parts[k] then
      Ascending(result) && (forall s :: s in result <==> StandsFor(base, Follow(e), comps, s))
    else
      (Leads(e, comps) ==> result == [literal]) && (!Leads(e, comps) ==> result == [])
  }

  lemma {:induction false} ComponentsAreKept(parts: seq<string>)
    ensures Keeps(parts, SplitComponents(parts))
    decreases |parts|
  {
    var comps := SplitComponents(parts);
    if parts == [] {
      assert Places(parts, comps, []);
    } else {
      ComponentsAreKept(parts[1..]);
      var more: seq<nat> :| Places(parts[1..], SplitComponents(parts[1..]), more);
      OneMorePlace(parts, more);
    }
  }

  lemma OneMorePlace(parts: seq<string>, more: seq<nat>)
    requires parts != [] && Places(parts[1..], SplitComponents(parts[1..]), more)
    ensures Keeps(parts, SplitComponents(parts))
  {
    hide SplitComponents;
    var rest := SplitComponents(parts[1..]);
    var kept := parts[0] != "" && parts[0] != ".";
    var shifted: seq<nat> := seq(|more|, i requires 0 <= i < |more| => more[i] + 1);
    Shifted(parts, more, shifted, rest);
    SplitFirst(parts);
    if kept {
      WithFirst(parts, shifted, rest);
    } else {
      assert Places(parts, rest, shifted);
    }
  }

  lemma WithFirst(parts: seq<string>, shifted: seq<nat>, rest: seq<string>)
    requires parts != [] && parts[0] != "" && parts[0] != "."
    requires |shifted| == |rest| && forall i, j :: 0 <= i < j < |shifted| ==> shifted[i] < shifted[j]
    requires forall i :: 0 <= i < |shifted| ==> 0 < shifted[i] < |parts| && rest[i] == parts[shifted[i]]
    requires forall k :: 0 < k < |parts| ==> (k in shifted <==> parts[k] != "" && parts[k] != ".")
    ensures Keeps(parts, [parts[0]] + rest)
  {
    var at, comps := [0 as nat] + shifted, [parts[0]] + rest;
    assert forall i :: 0 < i < |at| ==> at[i] == shifted[i - 1] && comps[i] == rest[i - 1];
    assert forall k: nat :: k in at <==> k == 0 || k in shifted;
    assert Places(parts, comps, at);
  }

  lemma SplitFirst(parts: seq<string>)
    requires parts != []
    ensures SplitComponents(parts) ==
            if parts[0] != "" && parts[0] != "." then [parts[0]] + SplitComponents(parts[1..]) else SplitComponents(parts[1..])
  {
    assert [] + SplitComponents(parts[1..]) == SplitComponents(parts[1..]);
  }

  lemma Shifted(parts: seq<string>, more: seq<nat>, shifted: seq<nat>, rest: seq<string>)
    requires parts != [] && Places(parts[1..], rest, more) && |shifted| == |more|
    requires forall i :: 0 <= i < |more| ==> shifted[i] == more[i] + 1
    ensures |shifted| == |rest| && forall i, j :: 0 <= i < j < |shifted| ==> shifted[i] < shifted[j]
    ensures forall i :: 0 <= i < |shifted| ==> 0 < shifted[i] < |parts| && rest[i] == parts[shifted[i]]
    ensures forall k :: 0 < k < |parts| ==> (k in shifted <==> parts[k] != "" && parts[k] != ".")
  {
    forall k | 0 < k < |parts| ensures k in shifted <==> parts[k] != "" && parts[k] != "." {
      assert parts[1..][k - 1] == parts[k];
      assert k - 1 in more <==> parts[1..][k - 1] != "" && parts[1..][k - 1] != ".";
      if k - 1 in more {
        var i :| 0 <= i < |more| && more[i] == k - 1;
        assert shifted[i] == k;
      }
    }
  }

  lemma {:induction false} StarInPart(parts: seq<string>)
    ensures HasWildcard(SplitComponents(parts)) <==> exists k :: 0 <= k < |parts| && '*' in parts[k]
    decreases |parts|
  {
    if parts != [] {
      StarInPart(parts[1..]);
      var rest := SplitComponents(parts[1..]);
      assert HasWildcard([parts[0]] + rest) <==> '*' in parts[0] || HasWildcard(rest) by {
        assert ([parts[0]] + rest)[1..] == rest;
      }
      assert [] + rest == rest;
      if HasWildcard(rest) {
        var k :| 0 <= k < |parts[1..]| && '*' in parts[1..][k];
        assert '*' in parts[k + 1];
      }
      if k :| 0 < k < |parts| && '*' in parts[k] {
        assert '*' in parts[1..][k - 1];
      }
    }
  }

  lemma {:induction false} ExistsIfLeads(e: Entry, comps: seq<string>)
    requires WellFormed(e)
    ensures Exists(e, comps) <==> Leads(e, comps)
    decreases |comps|
  {
    var dir := Follow(e);
    FollowIsWellFormed(e);
    if comps == [] {
      assert Way(e, comps, [e]);
    } else {
      var next := Lookup(Listing(dir), comps[0]);
      if next.Some? {
        LookupIsWellFormed(Listing(dir), comps[0]);
        FoundIsChild(Listing(dir), comps[0]);
        ExistsIfLeads(next.value, comps[1..]);
        if Leads(next.value, comps[1..]) {
          var way: seq<Entry> :| Way(next.value, comps[1..], way);
          assert Way(e, comps, [e] + way);
        }
      }
      if Leads(e, comps) {
        var way: seq<Entry> :| Way(e, comps, way);
        ChildIsFound(Listing(dir), Child(comps[0], way[1]));
        assert Way(way[1], comps[1..], way[1..]);
      }
    }
  }

  lemma {:induction false} FoundIsChild(cs: seq<Child>, name: string)
    ensures Lookup(cs, name).Some? ==> Child(name, Lookup(cs, name).value) in cs
  {
    if cs != [] && cs[0].name != name { FoundIsChild(cs[1..], name); }
  }

  lemma {:induction false} ChildIsFound(cs: seq<Child>, child: Child)
    requires Distinct(cs) && child in cs
    ensures Lookup(cs, child.name) == Some(child.entry)
  {
    if cs[0] != child {
      ChildIsFound(cs[1..], child);
      assert cs[0].name != child.name;
    }
  }

  /** `literal` is the full text of the pattern below the base directory, which may be reached by a link. */
  method GlobExpand(base: string, e: Entry, parts: seq<string>, literal: string) returns (result: seq<string>)
    requires WellFormed(e)
    ensures exists comps :: Keeps(parts, comps) && Expands(base, e, parts, comps, literal, result)
  {
    hide SplitComponents, HasWildcard, Exists, Leads, Keeps, StandsFor, Ascending, WellFormed, Follow;
    var comps := SplitComponents(parts);
    if !HasWildcard(comps) {
      result := if Exists(e, comps) then [literal] else [];
    } else {
      FollowIsWellFormed(e);
      result := ExpandWildcards(base, Follow(e), comps);
    }
    ComponentsAreKept(parts);
    StarInPart(parts);
    ExistsIfLeads(e, comps);
    assert Expands(base, e, parts, comps, literal, result);
  }

  method ExpandWildcards(base: string, dir: Entry, comps: seq<string>) returns (result: seq<string>)
    requires WellFormed(dir)
    ensures Ascending(result) && (forall s :: s in result <==> StandsFor(base, dir, comps, s))
  {
    var found := CollectMatches(base, dir, comps, 0, []);
    assert comps[0..] == comps && [] + Collect(base, dir, comps) == Collect(base, dir, comps);
    CollectIsMatching(base, dir, comps);
    SortUniqueSorts(found);
    result := SortUnique(found);
  }

  /** `s` is the text of a file the pattern stands for. */
  ghost predicate StandsFor(at: string, e: Entry, comps: seq<string>, s: string) {
    exists path :: Matches(e, comps, path) && s == PathText(at, path)
  }

  lemma CollectIsMatching(at: string, e: Entry, comps: seq<string>)
    requires WellFormed(e)
    ensures forall s :: s in Collect(at, e, comps) <==> StandsFor(at, e, comps, s)
  {
    forall s
      ensures s in Collect(at, e, comps) <==> StandsFor(at, e, comps, s)
    {
      if s in Collect(at, e, comps) {
        var path := CollectedMatches(at, e, comps, s);
      }
      if StandsFor(at, e, comps, s) {
        var path :| Matches(e, comps, path) && s == PathText(at, path);
        MatchesCollected(at, e, comps, path);
      }
    }
  }

  // ---------- Adjacent double stars ----------

  lemma {:induction false} DoubleStarHere(e: Entry, rest: seq<string>, path: seq<string>)
    ensures Matches(e, ["**"] + (["**"] + rest), path) <==> Matches(e, ["**"] + rest, path)
    decreases |path|
  {
    var one := ["**"] + rest;
    StarStar(e, one, path);
    if path != [] && StepsDown(e, path[0]) {
      DoubleStarHere(Lookup(Listing(e), path[0]).value, rest, path[1..]);
      StarStar(e, rest, path);
    }
  }

  /** Two double stars in a row mean the same as one, wherever they stand. */
  lemma {:induction false} DoubleStarCollapses(e: Entry, front: seq<string>, rest: seq<string>, path: seq<string>)
    ensures Matches(e, front + (["**"] + (["**"] + rest)), path) <==> Matches(e, front + (["**"] + rest), path)
    decreases |front|, |path|
  {
    var two, one := front + (["**"] + (["**"] + rest)), front + (["**"] + rest);
    if front == [] {
      assert two == ["**"] + (["**"] + rest) && one == ["**"] + rest;
      DoubleStarHere(e, rest, path);
    } else {
      var two', one' := front[1..] + (["**"] + (["**"] + rest)), front[1..] + (["**"] + rest);
      assert two == [front[0]] + two' && one == [front[0]] + one' && two[1..] == two' && one[1..] == one';
      if front[0] == "**" {
        StarStar(e, two', path);
        StarStar(e, one', path);
        DoubleStarCollapses(e, front[1..], rest, path);
        if path != [] && StepsDown(e, path[0]) {
          DoubleStarCollapses(Lookup(Listing(e), path[0]).value, front, rest, path[1..]);
        }
      } else if path != [] && path[0] == front[0] && Lookup(Listing(e), path[0]).Some? {
        DoubleStarCollapses(Follow(Lookup(Listing(e), path[0]).value), front[1..], rest, path[1..]);
      }
    }
  }

  /** So collapsing them never changes the result, though it changes how often files are met. */
  lemma CollapsingKeepsTheResult(base: string, e: Entry, front: seq<string>, rest: seq<string>)
    requires WellFormed(e)
    ensures SortUnique(Collect(base, e, front + (["**"] + (["**"] + rest)))) ==
            SortUnique(Collect(base, e, front + (["**"] + rest)))
  {
    var two, one := front + (["**"] + (["**"] + rest)), front + (["**"] + rest);
    CollectIsMatching(base, e, two);
    CollectIsMatching(base, e, one);
    forall s
      ensures s in Collect(base, e, two) <==> s in Collect(base, e, one)
    {
      assert StandsFor(base, e, two, s) <==> StandsFor(base, e, one, s) by {
        forall path
          ensures Matches(e, two, path) <==> Matches(e, one, path)
        {
          DoubleStarCollapses(e, front, rest, path);
        }
      }
    }
    SortUniqueSorts(Collect(base, e, two));
    SortUniqueSorts(Collect(base, e, one));
    Sorting.LessOrders(SortUnique(Collect(base, e, two)));
    Sorting.AscendingIsUnique(Sorting.Less, SortUnique(Collect(base, e, two)), SortUnique(Collect(base, e, one)));
  }
}
