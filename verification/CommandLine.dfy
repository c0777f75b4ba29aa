/** Windows command lines: quoting, and splitting. */
module CommandLine {
  // Quoting of arguments, and the rules by which a started program splits its command line again.

  // ---------- Backslashes ----------

  function Slashes(n: nat): (s: string)
    ensures |s| == n
  {
    if n == 0 then "" else ['\\'] + Slashes(n - 1)
  }

  function Leading(s: string): (n: nat)
    ensures n <= |s| && (n < |s| ==> s[n] != '\\')
  {
    if s != "" && s[0] == '\\' then Leading(s[1..]) + 1 else 0
  }

  lemma {:induction false} Divides(s: string)
    ensures s == Slashes(Leading(s)) + s[Leading(s)..]
    decreases |s|
  {
    if s != "" && s[0] == '\\' {
      Divides(s[1..]);
      assert s == [s[0]] + s[1..] && s[1..][Leading(s[1..])..] == s[Leading(s)..];
      assert ([s[0]] + Slashes(Leading(s[1..]))) + s[Leading(s)..] == [s[0]] + s[1..];
    } else {
      assert "" + s[0..] == s;
    }
  }

  lemma {:induction false} LeadingOf(n: nat, u: string)
    requires u == "" || u[0] != '\\'
    ensures Leading(Slashes(n) + u) == n && (Slashes(n) + u)[n..] == u
    decreases n
  {
    if n == 0 {
      assert Slashes(0) + u == u;
    } else {
      LeadingOf(n - 1, u);
      OneMore(Slashes(n - 1), u);
    }
  }

  lemma OneMore(run: string, u: string)
    ensures var s := (['\\'] + run) + u; s[0] == '\\' && s[1..] == run + u && s[|run| + 1..] == (run + u)[|run|..]
  {
  }

  // ---------- Quoting ----------

  predicate ForcesQuotes(c: char) { c == ' ' || c == '\t' || c == '\n' || c == '\U{000B}' || c == '"' }

  predicate Plain(s: string) { s == "" || (!ForcesQuotes(s[0]) && Plain(s[1..])) }

  /** What goes between the quotes. */
  function Escaped(arg: string): string
    decreases |arg|
  {
    var n := Leading(arg);
    if n == |arg| then Slashes(2 * n)
    else (if arg[n] == '"' then Slashes(2 * n + 1) else Slashes(n)) + ([arg[n]] + Escaped(arg[n + 1..]))
  }

  function Quoted(arg: string, force: bool): string {
    if !force && arg != "" && Plain(arg) then arg else ['"'] + (Escaped(arg) + ['"'])
  }

  datatype Arg = Arg(text: string, force: bool)

  function Arguments(args: seq<Arg>): string {
    if args == [] then "" else [' '] + (Quoted(args[0].text, args[0].force) + Arguments(args[1..]))
  }

  method AppendQuotedArg(cmd0: string, arg: string, forceQuote: bool) returns (cmd: string)
    ensures cmd == cmd0 + Quoted(arg, forceQuote)
  {
    cmd := cmd0;
    var plain := IsPlain(arg);
    if !forceQuote && arg != "" && plain {
      return cmd + arg;
    }
    cmd := cmd + ['"'];
    var it, going := 0, true;
    while going
      invariant it <= |arg|
      invariant if going then cmd + Escaped(arg[it..]) == cmd0 + ['"'] + Escaped(arg)
                else cmd == cmd0 + ['"'] + Escaped(arg)
      decreases going, |arg| - it
    {
      going, it, cmd := AppendRun(cmd, arg, it);
    }
    cmd := cmd + ['"'];
  }

  /** A run of backslashes and the character behind it. */
  method AppendRun(cmd0: string, arg: string, from: nat) returns (going: bool, it: nat, cmd: string)
    requires from <= |arg|
    ensures from <= it <= |arg| && (going ==> from < it)
    ensures cmd0 + Escaped(arg[from..]) == if going then cmd + Escaped(arg[it..]) else cmd
  {
    hide Escaped, Leading, Slashes;
    var backslashes := CountSlashes(arg, from);
    EscapedRun(arg, from, backslashes);
    it, cmd := from + backslashes, cmd0;
    going := it < |arg|;
    if !going {
      cmd := cmd + Slashes(backslashes * 2);
    } else {
      var run := if arg[it] == '"' then Slashes(backslashes * 2 + 1) else Slashes(backslashes);
      Regroup(cmd0, run, [arg[it]], Escaped(arg[it + 1..]));
      cmd := cmd + run + [arg[it]];
      it := it + 1;
    }
  }

  lemma EscapedRun(arg: string, from: nat, n: nat)
    requires from <= |arg| && n == Leading(arg[from..])
    ensures var it := from + n;
            Escaped(arg[from..]) ==
            if it == |arg| then Slashes(n * 2)
            else (if arg[it] == '"' then Slashes(n * 2 + 1) else Slashes(n)) + ([arg[it]] + Escaped(arg[it + 1..]))
  {
    hide Leading, Slashes;
    EscapedStep(arg[from..], n);
    if from + n < |arg| {
      TailOfTail(arg, from, n);
    }
  }

  lemma {:induction false} EscapedStep(s: string, n: nat)
    requires n == Leading(s)
    ensures Escaped(s) ==
            if n == |s| then Slashes(2 * n)
            else (if s[n] == '"' then Slashes(2 * n + 1) else Slashes(n)) + ([s[n]] + Escaped(s[n + 1..]))
  {
    hide Leading, Slashes;
  }

  lemma TailOfTail(s: string, from: nat, n: nat)
    requires from + n < |s|
    ensures s[from..][n] == s[from + n] && s[from..][n + 1..] == s[from + n + 1..]
  {
  }

  method CountSlashes(arg: string, from: nat) returns (n: nat)
    requires from <= |arg|
    ensures n == Leading(arg[from..])
  {
    n := 0;
    while from + n < |arg| && arg[from + n] == '\\'
      invariant from + n <= |arg| && Leading(arg[from..]) == n + Leading(arg[from + n..])
      decreases |arg| - n
    {
      assert arg[from + n..][1..] == arg[from + n + 1..];
      n := n + 1;
    }
    if from + n < |arg| { assert arg[from + n..][0] == arg[from + n]; }
  }

  lemma Regroup(a: string, b: string, c: string, d: string)
    ensures a + (b + (c + d)) == a + b + c + d
  {
  }

  method IsPlain(s: string) returns (plain: bool)
    ensures plain == Plain(s)
  {
    var i := 0;
    while i < |s|
      invariant i <= |s| && Plain(s[i..]) == Plain(s)
    {
      assert s[i..][0] == s[i] && s[i..][1..] == s[i + 1..];
      if ForcesQuotes(s[i]) {
        return false;
      }
      i := i + 1;
    }
    return true;
  }

  method BuildCommandLine(exe: string, args: seq<string>) returns (cmd: string)
    ensures cmd == Quoted(exe, false) + Arguments(seq(|args|, i requires 0 <= i < |args| => Arg(args[i], false)))
  {
    hide Quoted;
    ghost var all := seq(|args|, i requires 0 <= i < |args| => Arg(args[i], false));
    cmd := AppendQuotedArg("", exe, false);
    for i := 0 to |args|
      invariant cmd + Arguments(all[i..]) == Quoted(exe, false) + Arguments(all)
    {
      assert all[i..][1..] == all[i + 1..];
      Regroup(cmd, [' '], Quoted(args[i], false), Arguments(all[i + 1..]));
      cmd := AppendQuotedArg(cmd + [' '], args[i], false);
    }
    assert all[|args|..] == [];
  }

  // ---------- Splitting ----------

  predicate Separates(c: char) { c == ' ' || c == '\t' }

  /** One argument and what is left. Backslashes count only in front of a quote. With `doubled`, two
      quotes inside a quoted part stand for one; runtimes differ on that. */
  function ReadArg(doubled: bool, s: string, done: string, inQuotes: bool): (r: (string, string))
    ensures |r.1| <= |s| && (s != "" && (inQuotes || !Separates(s[0])) ==> |r.1| < |s|)
    decreases |s|, 1
  {
    ReadAt(doubled, Leading(s), s[Leading(s)..], done, inQuotes)
  }

  /** Behind `n` backslashes. */
  function ReadAt(doubled: bool, n: nat, t: string, done: string, inQuotes: bool): (r: (string, string))
    ensures |r.1| <= |t| && (t != "" && (inQuotes || !Separates(t[0])) ==> |r.1| < |t|)
    decreases |t|, 0
  {
    if t != "" && t[0] == '"' then
      if n % 2 == 1 then ReadArg(doubled, t[1..], done + (Slashes(n / 2) + ['"']), inQuotes)
      else if doubled && inQuotes && |t| > 1 && t[1] == '"' then ReadArg(doubled, t[2..], done + (Slashes(n / 2) + ['"']), inQuotes)
      else ReadArg(doubled, t[1..], done + Slashes(n / 2), !inQuotes)
    else if t == "" || (Separates(t[0]) && !inQuotes) then (done + Slashes(n), t)
    else ReadArg(doubled, t[1..], done + (Slashes(n) + [t[0]]), inQuotes)
  }

  function Split(doubled: bool, s: string): seq<string>
    decreases |s|
  {
    if s == "" then []
    else if Separates(s[0]) then Split(doubled, s[1..])
    else
      var r := ReadArg(doubled, s, "", false);
      [r.0] + Split(doubled, r.1)
  }

  /** The program name follows simpler rules: to the next quote, or to the next separator. */
  function ReadProgram(s: string): (string, string) {
    if s != "" && s[0] == '"' then UpToQuote(s[1..]) else UpToSpace(s)
  }

  function UpToQuote(s: string): (string, string) {
    if s == "" then ("", "") else if s[0] == '"' then ("", s[1..])
    else var r := UpToQuote(s[1..]); ([s[0]] + r.0, r.1)
  }

  function UpToSpace(s: string): (string, string) {
    if s == "" || Separates(s[0]) then ("", s) else var r := UpToSpace(s[1..]); ([s[0]] + r.0, r.1)
  }

  // ---------- Splitting undoes quoting ----------

  lemma ReadsRun(doubled: bool, n: nat, t: string, done: string, inQuotes: bool)
    requires t == "" || t[0] != '\\'
    ensures ReadArg(doubled, Slashes(n) + t, done, inQuotes) == ReadAt(doubled, n, t, done, inQuotes)
  {
    hide Slashes, ReadAt, Leading;
    LeadingOf(n, t);
  }

  lemma {:induction false} Unescapes(doubled: bool, arg: string, done: string, u: string)
    requires u == "" || u[0] != '"'
    ensures ReadArg(doubled, Escaped(arg) + (['"'] + u), done, true) == ReadArg(doubled, u, done + arg, false)
    decreases |arg|
  {
    hide ReadArg, Slashes, Leading;
    var n := Leading(arg);
    Divides(arg);
    if n == |arg| {
      assert arg[n..] == "" && Slashes(n) + "" == Slashes(n);
      ReadsSlashes(doubled, n, done, u);
    } else {
      var more := Escaped(arg[n + 1..]) + (['"'] + u);
      var next := Slashes(n) + [arg[n]];
      Unescapes(doubled, arg[n + 1..], done + next, u);
      Rebuilt(done, Slashes(n), arg, n);
      if arg[n] == '"' {
        Front(Slashes(2 * n + 1), '"', Escaped(arg[n + 1..]), ['"'] + u);
        ReadsQuote(doubled, n, done, more);
      } else {
        Front(Slashes(n), arg[n], Escaped(arg[n + 1..]), ['"'] + u);
        ReadsOther(doubled, n, arg[n], done, more, true);
      }
    }
  }

  lemma Rebuilt(done: string, run: string, arg: string, n: nat)
    requires n < |arg| && arg == run + arg[n..]
    ensures done + (run + [arg[n]]) + arg[n + 1..] == done + arg
  {
    assert arg[n..] == [arg[n]] + arg[n + 1..];
    Regroup(done, run, [arg[n]], arg[n + 1..]);
    assert done + (run + [arg[n]]) == done + run + [arg[n]];
  }

  lemma Front(run: string, c: char, inside: string, u: string)
    ensures run + ([c] + inside) + u == run + ([c] + (inside + u))
  {
  }

  lemma ReadsSlashes(doubled: bool, n: nat, done: string, u: string)
    requires u == "" || u[0] != '"'
    ensures ReadArg(doubled, Slashes(2 * n) + (['"'] + u), done, true) == ReadArg(doubled, u, done + Slashes(n), false)
  {
    hide ReadArg, Slashes;
    ReadsRun(doubled, 2 * n, ['"'] + u, done, true);
    assert (['"'] + u)[1..] == u && (2 * n) % 2 == 0 && 2 * n / 2 == n;
  }

  lemma ReadsQuote(doubled: bool, n: nat, done: string, more: string)
    ensures ReadArg(doubled, Slashes(2 * n + 1) + (['"'] + more), done, true) ==
            ReadArg(doubled, more, done + (Slashes(n) + ['"']), true)
  {
    hide ReadArg, Slashes;
    ReadsRun(doubled, 2 * n + 1, ['"'] + more, done, true);
    assert (['"'] + more)[1..] == more && (2 * n + 1) % 2 == 1 && (2 * n + 1) / 2 == n;
  }

  lemma ReadsOther(doubled: bool, n: nat, c: char, done: string, more: string, inQuotes: bool)
    requires c != '\\' && c != '"' && (inQuotes || !Separates(c))
    ensures ReadArg(doubled, Slashes(n) + ([c] + more), done, inQuotes) ==
            ReadArg(doubled, more, done + (Slashes(n) + [c]), inQuotes)
  {
    hide ReadArg, Slashes;
    ReadsRun(doubled, n, [c] + more, done, inQuotes);
    assert ([c] + more)[1..] == more;
  }

  /** What may stand behind an argument: nothing or a separator. */
  predicate Ends(u: string) { u == "" || Separates(u[0]) }

  lemma EndsHere(doubled: bool, n: nat, done: string, u: string)
    requires Ends(u)
    ensures ReadArg(doubled, Slashes(n) + u, done, false) == (done + Slashes(n), u)
  {
    hide ReadArg, Slashes;
    ReadsRun(doubled, n, u, done, false);
  }

  lemma {:induction false} PlainDrops(s: string, n: nat)
    requires Plain(s) && n <= |s|
    ensures Plain(s[n..]) && (n < |s| ==> !ForcesQuotes(s[n]))
    decreases n
  {
    if n > 0 {
      PlainDrops(s[1..], n - 1);
      assert s[1..][n - 1..] == s[n..];
    } else {
      assert s[0..] == s;
    }
  }

  lemma {:induction false} ReadsPlain(doubled: bool, arg: string, done: string, u: string)
    requires Plain(arg) && Ends(u)
    ensures ReadArg(doubled, arg + u, done, false) == (done + arg, u)
    decreases |arg|
  {
    hide ReadArg, Slashes, Leading;
    var n := Leading(arg);
    Divides(arg);
    if n == |arg| {
      assert arg[n..] == "" && Slashes(n) + "" == Slashes(n);
      EndsHere(doubled, n, done, u);
    } else {
      PlainDrops(arg, n);
      PlainDrops(arg, n + 1);
      assert arg[n..] == [arg[n]] + arg[n + 1..];
      Front(Slashes(n), arg[n], arg[n + 1..], u);
      ReadsOther(doubled, n, arg[n], done, arg[n + 1..] + u, false);
      ReadsPlain(doubled, arg[n + 1..], done + (Slashes(n) + [arg[n]]), u);
      Rebuilt(done, Slashes(n), arg, n);
    }
  }

  lemma ReadsQuoted(doubled: bool, arg: string, force: bool, u: string)
    requires Ends(u)
    ensures ReadArg(doubled, Quoted(arg, force) + u, "", false) == (arg, u)
    ensures Quoted(arg, force) != "" && !Separates(Quoted(arg, force)[0])
  {
    hide ReadArg, Escaped;
    if !force && arg != "" && Plain(arg) {
      ReadsPlain(doubled, arg, "", u);
      assert "" + arg == arg;
    } else {
      var inside := Escaped(arg) + (['"'] + u);
      assert Quoted(arg, force) + u == ['"'] + inside;
      OpensQuote(doubled, inside);
      Unescapes(doubled, arg, "", u);
      assert "" + arg == arg;
      assert Slashes(0) + u == u && arg + Slashes(0) == arg;
      EndsHere(doubled, 0, arg, u);
    }
  }

  lemma OpensQuote(doubled: bool, inside: string)
    ensures ReadArg(doubled, ['"'] + inside, "", false) == ReadArg(doubled, inside, "", true)
  {
    hide ReadArg;
    assert Slashes(0) + (['"'] + inside) == ['"'] + inside;
    ReadsRun(doubled, 0, ['"'] + inside, "", false);
    assert (['"'] + inside)[1..] == inside && "" + Slashes(0) == "";
  }

  function Texts(args: seq<Arg>): seq<string> {
    seq(|args|, i requires 0 <= i < |args| => args[i].text)
  }

  /** Every argument arrives as it was given, whatever it holds and however it was quoted. */
  lemma {:induction false} SplittingUndoesQuoting(doubled: bool, args: seq<Arg>)
    ensures Split(doubled, Arguments(args)) == Texts(args)
    decreases |args|
  {
    if args != [] {
      var q, more := Quoted(args[0].text, args[0].force), Arguments(args[1..]);
      assert Ends(more);
      ReadsQuoted(doubled, args[0].text, args[0].force, more);
      var s := [' '] + (q + more);
      assert s[1..] == q + more && s[0] == ' ';
      assert (q + more)[0] == q[0];
      SplittingUndoesQuoting(doubled, args[1..]);
      assert Texts(args) == [args[0].text] + Texts(args[1..]);
    }
  }

  // ---------- The program name ----------

  predicate NoQuote(s: string) { s == "" || (s[0] != '"' && NoQuote(s[1..])) }

  /** The length of the run of backslashes a string ends in. */
  function Trailing(s: string): (k: nat)
    decreases |s|
  {
    var n := Leading(s);
    if n == |s| then n else Trailing(s[n + 1..])
  }

  lemma {:induction false} TrailingIsLast(s: string)
    ensures Trailing(s) == 0 <==> s == "" || s[|s| - 1] != '\\'
    decreases |s|
  {
    var n := Leading(s);
    if n == |s| {
      Divides(s);
      if n > 0 { SlashesEnd(n, s[n..]); }
    } else {
      TrailingIsLast(s[n + 1..]);
    }
  }

  lemma {:induction false} SlashesEnd(n: nat, u: string)
    requires n > 0 && u == ""
    ensures (Slashes(n) + u)[n - 1] == '\\'
  {
    if n > 1 {
      SlashesEnd(n - 1, u);
      assert (Slashes(n) + u)[1..] == Slashes(n - 1) + u;
    }
  }

  lemma {:induction false} NoQuoteDrops(s: string, n: nat)
    requires NoQuote(s) && n <= |s|
    ensures NoQuote(s[n..]) && (n < |s| ==> s[n] != '"')
    decreases n
  {
    if n > 0 {
      NoQuoteDrops(s[1..], n - 1);
      assert s[1..][n - 1..] == s[n..];
    } else {
      assert s[0..] == s;
    }
  }

  /** Without quotes inside, escaping only doubles the backslashes at the end. */
  lemma {:induction false} EscapedWithoutQuotes(s: string)
    requires NoQuote(s)
    ensures Escaped(s) == s + Slashes(Trailing(s))
    decreases |s|
  {
    hide Slashes, Leading;
    var n := Leading(s);
    Divides(s);
    if n == |s| {
      assert s[n..] == "" && Slashes(n) + "" == Slashes(n);
      SlashesJoin(n, n);
    } else {
      NoQuoteDrops(s, n);
      NoQuoteDrops(s, n + 1);
      EscapedWithoutQuotes(s[n + 1..]);
      assert s[n..] == [s[n]] + s[n + 1..];
      Front(Slashes(n), s[n], s[n + 1..], Slashes(Trailing(s[n + 1..])));
    }
  }

  lemma {:induction false} SlashesJoin(a: nat, b: nat)
    ensures Slashes(a + b) == Slashes(a) + Slashes(b)
  {
    if a == 0 {
      assert "" + Slashes(b) == Slashes(b);
    } else {
      SlashesJoin(a - 1, b);
      assert ['\\'] + (Slashes(a - 1) + Slashes(b)) == (['\\'] + Slashes(a - 1)) + Slashes(b);
    }
  }

  lemma {:induction false} UpToQuoteReads(s: string, u: string)
    requires NoQuote(s)
    ensures UpToQuote(s + (['"'] + u)) == (s, u)
    decreases |s|
  {
    if s == "" {
      assert s + (['"'] + u) == ['"'] + u && (['"'] + u)[1..] == u;
    } else {
      assert (s + (['"'] + u))[1..] == s[1..] + (['"'] + u);
      UpToQuoteReads(s[1..], u);
      assert [s[0]] + s[1..] == s;
    }
  }

  lemma {:induction false} UpToQuoteHasNone(s: string)
    ensures NoQuote(UpToQuote(s).0)
    decreases |s|
  {
    if s != "" && s[0] != '"' {
      UpToQuoteHasNone(s[1..]);
      assert UpToQuote(s).0[1..] == UpToQuote(s[1..]).0;
    }
  }

  lemma {:induction false} UpToSpaceReads(s: string, u: string)
    requires Plain(s) && Ends(u)
    ensures UpToSpace(s + u) == (s, u)
    decreases |s|
  {
    if s == "" {
      assert s + u == u;
    } else {
      assert (s + u)[1..] == s[1..] + u;
      UpToSpaceReads(s[1..], u);
      assert [s[0]] + s[1..] == s;
    }
  }

  lemma {:induction false} NoQuoteJoins(s: string, n: nat)
    requires NoQuote(s)
    ensures NoQuote(s + Slashes(n))
    decreases |s|, n
  {
    if s == "" {
      assert s + Slashes(n) == Slashes(n);
      if n > 0 {
        NoQuoteJoins(s, n - 1);
        assert s + Slashes(n - 1) == Slashes(n - 1) && Slashes(n)[1..] == Slashes(n - 1);
      }
    } else {
      assert (s + Slashes(n))[1..] == s[1..] + Slashes(n);
      NoQuoteJoins(s[1..], n);
    }
  }

  /** The program name is split off by other rules than it was quoted by. It survives exactly when it
      holds no quote, and, where it has to be quoted, does not end in a backslash. */
  lemma ProgramNameSurvives(exe: string, u: string)
    requires Ends(u)
    ensures ReadProgram(Quoted(exe, false) + u) == (exe, u) <==>
            NoQuote(exe) && (exe == "" || Plain(exe) || exe[|exe| - 1] != '\\')
  {
    hide Escaped, Slashes, Trailing;
    TrailingIsLast(exe);
    if exe != "" && Plain(exe) {
      PlainHasNoQuote(exe);
      UpToSpaceReads(exe, u);
      assert (exe + u)[0] == exe[0];
    } else {
      var inside := Escaped(exe) + (['"'] + u);
      assert Quoted(exe, false) + u == ['"'] + inside && (['"'] + inside)[1..] == inside;
      UpToQuoteHasNone(inside);
      if NoQuote(exe) {
        EscapedWithoutQuotes(exe);
        NoQuoteJoins(exe, Trailing(exe));
        UpToQuoteReads(Escaped(exe), u);
        assert Trailing(exe) == 0 ==> exe + Slashes(0) == exe by { assert |Slashes(0)| == 0; }
      }
    }
  }

  /** Two names that do not: one with a blank that ends in a backslash, one with a quote. */
  lemma ProgramNamesThatFail()
    ensures ReadProgram(Quoted(" \\", false)) != (" \\", "") && ReadProgram(Quoted("a\"", false)) != ("a\"", "")
  {
    hide ReadProgram, Quoted;
    var a, b := " \\", "a\"";
    ProgramNameSurvives(a, "");
    ProgramNameSurvives(b, "");
    assert Quoted(a, false) + "" == Quoted(a, false) && Quoted(b, false) + "" == Quoted(b, false);
    assert b[1..][0] == '"' && !NoQuote(b[1..]);
  }

  lemma {:induction false} PlainHasNoQuote(s: string)
    requires Plain(s)
    ensures NoQuote(s)
    decreases |s|
  {
    if s != "" { PlainHasNoQuote(s[1..]); }
  }
}
