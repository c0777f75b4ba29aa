/** Recursive glob matching: the collector, and the relation between patterns and paths it computes. */
module FileGlob {
  import opened Options

  /** A link stands for what it points to; only some of the tests follow it. */
  datatype Entry = File | Dir(children: seq<Child>) | Link(target: Entry) | Special

  datatype Child = Child(name: string, entry: Entry)

  function Follow(e: Entry): (r: Entry)
    ensures !r.Link?
  {
    if e.Link? then Follow(e.target) else e
  }

  /** What a directory iteration sees: nothing when there is no directory. */
  function Listing(e: Entry): seq<Child> {
    if e.Dir? then e.children else []
  }

  function Lookup(cs: seq<Child>, name: string): Option<Entry> {
    if cs == [] then None else if cs[0].name == name then Some(cs[0].entry) else Lookup(cs[1..], name)
  }

  // ---------- Matching one name ----------

  function Star(pattern: string): (r: Option<nat>)
    ensures r.Some? ==> r.value < |pattern| && pattern[r.value] == '*'
    ensures r.None? <==> '*' !in pattern
  {
    if pattern == "" then None
    else if pattern[0] == '*' then Some(0)
    else
      var later := Star(pattern[1..]);
      assert pattern == [pattern[0]] + pattern[1..];
      if later.Some? then Some(later.value + 1) else None
  }

  /** The part before the first star and the part behind it are anchored independently, so they may
      overlap in the name. */
  predicate MatchFilename(name: string, pattern: string) {
    var star := Star(pattern);
    if star.None? then name == pattern
    else
      var prefix, suffix := pattern[..star.value], pattern[star.value + 1..];
      (prefix == "" || (if |name| < |prefix| then name else name[..|prefix|]) == prefix) &&
      (suffix == "" || (|name| >= |suffix| && name[|name| - |suffix|..] == suffix))
  }

  lemma MatchFilenameMeans(name: string, pattern: string)
    ensures MatchFilename(name, pattern) <==>
            if '*' !in pattern then name == pattern
            else exists i: nat | i < |pattern| && pattern[i] == '*' && '*' !in pattern[..i] ::
                   pattern[..i] <= name && |pattern| - i - 1 <= |name| && name[|name| - (|pattern| - i - 1)..] == pattern[i + 1..]
  {
    var star := Star(pattern);
    if star.Some? {
      FirstStar(pattern);
      var suffix := pattern[star.value + 1..];
      assert suffix == "" ==> name[|name| - 0..] == suffix;
      forall i: nat | i < |pattern| && pattern[i] == '*' && '*' !in pattern[..i]
        ensures i == star.value
      {
        OnlyFirstStar(pattern, i);
      }
    }
  }

  lemma {:induction false} FirstStar(pattern: string)
    ensures var star := Star(pattern); star.Some? ==> '*' !in pattern[..star.value]
  {
    if pattern != "" && pattern[0] != '*' {
      FirstStar(pattern[1..]);
      var later := Star(pattern[1..]);
      if later.Some? {
        assert pattern[..later.value + 1] == [pattern[0]] + pattern[1..][..later.value];
      }
    }
  }

  lemma {:induction false} OnlyFirstStar(pattern: string, i: nat)
    requires i < |pattern| && pattern[i] == '*' && '*' !in pattern[..i]
    ensures Star(pattern) == Some(i)
  {
    if i > 0 {
      assert pattern[..i][0] == pattern[0];
      assert pattern[..i] == [pattern[0]] + pattern[1..][..i - 1];
      OnlyFirstStar(pattern[1..], i - 1);
    }
  }

  // ---------- Collecting ----------

  function Join(at: string, name: string): string { at + "/" + name }

  function Collect(at: string, e: Entry, comps: seq<string>): seq<string>
    decreases |comps|, e, 1
  {
    if comps == [] then []
    else if comps[0] == "**" then
      (if e.Dir? then Walk(at, e.children, comps) else []) + Collect(at, e, comps[1..])
    else if |comps| == 1 then Names(at, Listing(e), comps[0])
    else
      var next := Lookup(Listing(e), comps[0]);
      if next.Some? && Follow(next.value).Dir? then Collect(Join(at, comps[0]), Follow(next.value), comps[1..]) else []
  }

  /** Every entry below a `**`. */
  function Walk(at: string, cs: seq<Child>, comps: seq<string>): seq<string>
    requires comps != []
    decreases |comps|, cs
  {
    if cs == [] then []
    else
      (if cs[0].entry.Dir? then Collect(Join(at, cs[0].name), cs[0].entry, comps)
       else if |comps| == 1 && cs[0].entry.File? then [Join(at, cs[0].name)] else [])
      + Walk(at, cs[1..], comps)
  }

  /** The files a last component matches. */
  function Names(at: string, cs: seq<Child>, pattern: string): seq<string> {
    if cs == [] then []
    else
      (if Follow(cs[0].entry).File? && MatchFilename(cs[0].name, pattern) then [Join(at, cs[0].name)] else [])
      + Names(at, cs[1..], pattern)
  }

  method CollectMatches(at: string, e: Entry, comps: seq<string>, index: nat, out0: seq<string>) returns (out: seq<string>)
    requires index <= |comps|
    ensures out == out0 + Collect(at, e, comps[index..])
    decreases |comps| - index, e, 1
  {
    out := out0;
    ghost var rest := comps[index..];
    if index >= |comps| {
      return;
    }
    assert rest[0] == comps[index] && rest[1..] == comps[index + 1..];
    if comps[index] == "**" {
      if e.Dir? {
        out := WalkBelow(at, e.children, comps, index, out);
      }
      out := CollectMatches(at, e, comps, index + 1, out);
      Regroup(out0, if e.Dir? then Walk(at, e.children, rest) else [], Collect(at, e, comps[index + 1..]));
    } else if index + 1 == |comps| {
      out := MatchNames(at, Listing(e), comps[index], out);
    } else {
      var next := Lookup(Listing(e), comps[index]);
      if next.Some? && Follow(next.value).Dir? {
        out := CollectMatches(Join(at, comps[index]), Follow(next.value), comps, index + 1, out);
      }
    }
  }

  method WalkBelow(at: string, cs: seq<Child>, comps: seq<string>, index: nat, out0: seq<string>) returns (out: seq<string>)
    requires index < |comps|
    ensures out == out0 + Walk(at, cs, comps[index..])
    decreases |comps| - index, cs
  {
    out := out0;
    ghost var rest := comps[index..];
    for i := 0 to |cs|
      invariant out + Walk(at, cs[i..], rest) == out0 + Walk(at, cs, rest)
    {
      var entry, name := cs[i].entry, cs[i].name;
      ghost var before := out;
      assert cs[i..][0] == cs[i] && cs[i..][1..] == cs[i + 1..];
      if entry.Dir? {
        out := CollectMatches(Join(at, name), entry, comps, index, out);
        Regroup(before, Collect(Join(at, name), entry, rest), Walk(at, cs[i + 1..], rest));
      } else if index + 1 == |comps| && entry.File? {
        out := out + [Join(at, name)];
        Regroup(before, [Join(at, name)], Walk(at, cs[i + 1..], rest));
      } else {
        Regroup(before, [], Walk(at, cs[i + 1..], rest));
      }
    }
  }

  method MatchNames(at: string, cs: seq<Child>, pattern: string, out0: seq<string>) returns (out: seq<string>)
    ensures out == out0 + Names(at, cs, pattern)
  {
    out := out0;
    for i := 0 to |cs|
      invariant out + Names(at, cs[i..], pattern) == out0 + Names(at, cs, pattern)
    {
      assert cs[i..][0] == cs[i] && cs[i..][1..] == cs[i + 1..];
      ghost var before := out;
      var more := if Follow(cs[i].entry).File? && MatchFilename(cs[i].name, pattern) then [Join(at, cs[i].name)] else [];
      out := out + more;
      Regroup(before, more, Names(at, cs[i + 1..], pattern));
    }
  }

  lemma Regroup(a: seq<string>, b: seq<string>, c: seq<string>)
    ensures a + (b + c) == (a + b) + c
  {
  }

  // ---------- The declared meaning of a pattern ----------

  /** The path leads from `e` through real directories only, without following links. */
  predicate RealDirs(e: Entry, path: seq<string>)
    decreases |path|
  {
    path == [] || (Lookup(Listing(e), path[0]).Some? && Lookup(Listing(e), path[0]).value.Dir? &&
                   RealDirs(Lookup(Listing(e), path[0]).value, path[1..]))
  }

  function Below(e: Entry, path: seq<string>): Entry
    requires RealDirs(e, path)
    decreases |path|
  {
    if path == [] then e else Below(Lookup(Listing(e), path[0]).value, path[1..])
  }

  /** A name in a directory that is a file, links followed or not. */
  predicate HasFile(e: Entry, name: string, follow: bool) {
    var entry := Lookup(Listing(e), name);
    entry.Some? && (if follow then Follow(entry.value) else entry.value).File?
  }

  /** The files a pattern stands for, as paths from `e`: `**` spans any number of real directories and,
      in last place, any file; other components but the last are literal names of directories; the
      last one matches file names. */
  predicate Matches(e: Entry, comps: seq<string>, path: seq<string>)
    decreases |comps|, |path|
  {
    if comps == [] then false
    else if comps[0] == "**" then
      || (exists k | 0 <= k <= |path| :: RealDirs(e, path[..k]) && Matches(Below(e, path[..k]), comps[1..], path[k..]))
      || (|comps| == 1 && path != [] && RealDirs(e, path[..|path| - 1]) &&
          HasFile(Below(e, path[..|path| - 1]), path[|path| - 1], false))
    else if |comps| == 1 then |path| == 1 && HasFile(e, path[0], true) && MatchFilename(path[0], comps[0])
    else
      path != [] && path[0] == comps[0] &&
      var next := Lookup(Listing(e), path[0]);
      next.Some? && Follow(next.value).Dir? && Matches(Follow(next.value), comps[1..], path[1..])
  }

  // ---------- Names in a directory are distinct ----------

  predicate Distinct(cs: seq<Child>) {
    cs == [] || (Lookup(cs[1..], cs[0].name).None? && Distinct(cs[1..]))
  }

  predicate WellFormed(e: Entry)
    decreases e, 1
  {
    match e
    case Dir(children) => Distinct(children) && AllWellFormed(children)
    case Link(target) => WellFormed(target)
    case _ => true
  }

  predicate AllWellFormed(cs: seq<Child>)
    decreases cs, 0
  {
    cs == [] || (WellFormed(cs[0].entry) && AllWellFormed(cs[1..]))
  }

  lemma {:induction false} LookupIsWellFormed(cs: seq<Child>, name: string)
    requires AllWellFormed(cs)
    ensures var r := Lookup(cs, name); r.Some? ==> WellFormed(r.value) && WellFormed(Follow(r.value))
  {
    if cs != [] {
      FollowIsWellFormed(cs[0].entry);
      LookupIsWellFormed(cs[1..], name);
    }
  }

  lemma {:induction false} FollowIsWellFormed(e: Entry)
    requires WellFormed(e)
    ensures WellFormed(Follow(e))
  {
    if e.Link? { FollowIsWellFormed(e.target); }
  }

  // ---------- One step of a `**` ----------

  /** The child a name leads to, if it is a real directory. */
  predicate StepsDown(e: Entry, name: string) {
    Lookup(Listing(e), name).Some? && Lookup(Listing(e), name).value.Dir?
  }

  /** A `**` matches here, one real directory further down, or a file in last place. */
  lemma StarStar(e: Entry, rest: seq<string>, path: seq<string>)
    ensures Matches(e, ["**"] + rest, path) <==>
            || Matches(e, rest, path)
            || (path != [] && StepsDown(e, path[0]) && Matches(Lookup(Listing(e), path[0]).value, ["**"] + rest, path[1..]))
            || (rest == [] && |path| == 1 && HasFile(e, path[0], false))
  {
    hide Matches, HasFile;
    var comps := ["**"] + rest;
    if Matches(e, comps, path) && !Matches(e, rest, path) {
      SpansOneStep(e, rest, path);
    }
    if Matches(e, rest, path) {
      SpansNothing(e, rest, path);
    }
    if path != [] && StepsDown(e, path[0]) && Matches(Lookup(Listing(e), path[0]).value, comps, path[1..]) {
      SpansOneMore(e, rest, path);
    }
    if rest == [] && |path| == 1 && HasFile(e, path[0], false) {
      FileInLastPlace(e, path);
    }
  }

  lemma SpansNothing(e: Entry, rest: seq<string>, path: seq<string>)
    requires Matches(e, rest, path)
    ensures Matches(e, ["**"] + rest, path)
  {
    assert (["**"] + rest)[1..] == rest;
    assert path[..0] == [] && path[0..] == path;
    assert RealDirs(e, path[..0]) && Below(e, path[..0]) == e;
  }

  lemma FileInLastPlace(e: Entry, path: seq<string>)
    requires |path| == 1 && HasFile(e, path[0], false)
    ensures Matches(e, ["**"] + [], path)
  {
    assert path[..|path| - 1] == [] && RealDirs(e, path[..|path| - 1]);
  }

  lemma SpansOneStep(e: Entry, rest: seq<string>, path: seq<string>)
    requires Matches(e, ["**"] + rest, path) && !Matches(e, rest, path)
    ensures || (path != [] && StepsDown(e, path[0]) && Matches(Lookup(Listing(e), path[0]).value, ["**"] + rest, path[1..]))
            || (rest == [] && |path| == 1 && HasFile(e, path[0], false))
  {
    var comps := ["**"] + rest;
    assert comps[1..] == rest;
    if k: nat :| k <= |path| && RealDirs(e, path[..k]) && Matches(Below(e, path[..k]), rest, path[k..]) {
      assert path[0..] == path && path[..0] == [];
      SpanShrinks(e, rest, path, k);
    } else {
      TailShrinks(e, path);
    }
  }

  lemma SpanShrinks(e: Entry, rest: seq<string>, path: seq<string>, k: nat)
    requires 0 < k <= |path| && RealDirs(e, path[..k]) && Matches(Below(e, path[..k]), rest, path[k..])
    ensures StepsDown(e, path[0]) && Matches(Lookup(Listing(e), path[0]).value, ["**"] + rest, path[1..])
  {
    var comps, more := ["**"] + rest, path[1..];
    assert comps[1..] == rest;
    assert path[..k][1..] == more[..k - 1] && path[k..] == more[k - 1..] && path[..k][0] == path[0];
    var child := Lookup(Listing(e), path[0]).value;
    assert RealDirs(child, more[..k - 1]) && Matches(Below(child, more[..k - 1]), comps[1..], more[k - 1..]);
  }

  lemma TailShrinks(e: Entry, path: seq<string>)
    requires path != [] && RealDirs(e, path[..|path| - 1]) && HasFile(Below(e, path[..|path| - 1]), path[|path| - 1], false)
    ensures if |path| == 1 then HasFile(e, path[0], false)
            else StepsDown(e, path[0]) && Matches(Lookup(Listing(e), path[0]).value, ["**"], path[1..])
  {
    var n, more := |path| - 1, path[1..];
    if n > 0 {
      assert path[..n][1..] == more[..n - 1] && path[..n][0] == path[0] && more[|more| - 1] == path[n];
      var child := Lookup(Listing(e), path[0]).value;
      assert RealDirs(child, more[..|more| - 1]);
    }
  }

  lemma SpansOneMore(e: Entry, rest: seq<string>, path: seq<string>)
    requires path != [] && StepsDown(e, path[0]) && Matches(Lookup(Listing(e), path[0]).value, ["**"] + rest, path[1..])
    ensures Matches(e, ["**"] + rest, path)
  {
    var comps, child, more := ["**"] + rest, Lookup(Listing(e), path[0]).value, path[1..];
    assert comps[1..] == rest;
    if k: nat :| k <= |more| && RealDirs(child, more[..k]) && Matches(Below(child, more[..k]), rest, more[k..]) {
      assert path[..k + 1][1..] == more[..k] && path[k + 1..] == more[k..] && path[..k + 1][0] == path[0];
      assert RealDirs(e, path[..k + 1]);
    } else {
      var n := |path| - 1;
      assert path[..n][1..] == more[..|more| - 1] && path[..n][0] == path[0] && path[n] == more[|more| - 1];
      assert RealDirs(e, path[..n]);
    }
  }
}
