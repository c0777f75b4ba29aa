/** What summary templates are accepted as. */
module SummaryResults {
  // And how often placeholders are resolved.

  import opened Options
  import opened SummaryTemplate

  // ---------- Strings ----------

  lemma {:induction false} DoubledSnoc(s: string, c: char)
    ensures Doubled(s + [c]) == Doubled(s) + Doubled([c])
  {
    if s == "" {
      assert s + [c] == [c] && Doubled("") + Doubled([c]) == Doubled([c]);
    } else {
      assert (s + [c])[1..] == s[1..] + [c];
      DoubledSnoc(s[1..], c);
      var first := if s[0] == '{' then "{{" else if s[0] == '}' then "}}" else [s[0]];
      assert first + (Doubled(s[1..]) + Doubled([c])) == (first + Doubled(s[1..])) + Doubled([c]);
    }
  }

  lemma OneDoubled(c: char)
    ensures Doubled([c]) == if c == '{' then "{{" else if c == '}' then "}}" else [c]
  {
    assert [c][1..] == "" && Doubled("") == "";
  }

  lemma {:induction false} TrimLeftSplits(s: string) returns (pre: string)
    ensures Blanks(pre) && s == pre + TrimLeft(s) && (TrimLeft(s) == "" || !IsBlank(TrimLeft(s)[0]))
  {
    if s != "" && IsBlank(s[0]) {
      var more := TrimLeftSplits(s[1..]);
      pre := [s[0]] + more;
      assert s == [s[0]] + s[1..] && pre[1..] == more;
    } else {
      pre := "";
      assert "" + s == s;
    }
  }

  lemma {:induction false} TrimRightSplits(s: string) returns (post: string)
    ensures Blanks(post) && s == TrimRight(s) + post && (TrimRight(s) == "" || !IsBlank(TrimRight(s)[|TrimRight(s)| - 1]))
    ensures TrimRight(s) != "" ==> TrimRight(s)[0] == s[0]
    decreases |s|
  {
    if s != "" && IsBlank(s[|s| - 1]) {
      var most := s[..|s| - 1];
      var more := TrimRightSplits(most);
      post := more + [s[|s| - 1]];
      BlanksSnoc(more, s[|s| - 1]);
      assert s == most + [s[|s| - 1]];
    } else {
      post := "";
      assert s + "" == s;
    }
  }

  lemma {:induction false} BlanksSnoc(s: string, c: char)
    requires Blanks(s) && IsBlank(c)
    ensures Blanks(s + [c])
  {
    if s == "" {
      assert s + [c] == [c] && [c][1..] == "";
    } else {
      assert (s + [c])[1..] == s[1..] + [c];
      BlanksSnoc(s[1..], c);
    }
  }

  lemma TrimSplits(s: string) returns (pre: string, post: string)
    requires Trim(s) != ""
    ensures Blanks(pre) && Blanks(post) && Trimmed(Trim(s)) && s == pre + Trim(s) + post
  {
    pre := TrimLeftSplits(s);
    post := TrimRightSplits(TrimLeft(s));
    assert pre + (Trim(s) + post) == pre + Trim(s) + post;
  }

  lemma {:induction false} TrimsLeft(pre: string, s: string)
    requires Blanks(pre) && s != "" && !IsBlank(s[0])
    ensures TrimLeft(pre + s) == s
    decreases |pre|
  {
    if pre == "" {
      assert pre + s == s;
    } else {
      assert (pre + s)[1..] == pre[1..] + s;
      TrimsLeft(pre[1..], s);
    }
  }

  lemma {:induction false} TrimsRight(s: string, post: string)
    requires Blanks(post) && s != "" && !IsBlank(s[|s| - 1])
    ensures TrimRight(s + post) == s
    decreases |post|
  {
    if post == "" {
      assert s + post == s;
    } else {
      LastBlank(post);
      var most := post[..|post| - 1];
      assert (s + post)[..|s + post| - 1] == s + most && (s + post)[|s + post| - 1] == post[|post| - 1];
      TrimsRight(s, most);
    }
  }

  lemma {:induction false} LastBlank(s: string)
    requires Blanks(s) && s != ""
    ensures IsBlank(s[|s| - 1]) && Blanks(s[..|s| - 1])
    decreases |s|
  {
    if |s| > 1 {
      LastBlank(s[1..]);
      assert s[..|s| - 1][1..] == s[1..][..|s[1..]| - 1];
    }
  }

  lemma TrimsSlot(pre: string, expr: string, post: string)
    requires Blanks(pre) && Blanks(post) && Trimmed(expr)
    ensures Trim(pre + expr + post) == expr
  {
    assert pre + expr + post == pre + (expr + post);
    assert (expr + post)[0] == expr[0];
    TrimsLeft(pre, expr + post);
    TrimsRight(expr, post);
  }

  lemma {:induction false} NoBraceJoins(a: string, b: string)
    requires (Blanks(a) || NoBrace(a)) && NoBrace(b)
    ensures NoBrace(a + b)
    decreases |a|
  {
    if a == "" {
      assert a + b == b;
    } else {
      assert (a + b)[1..] == a[1..] + b;
      NoBraceJoins(a[1..], b);
    }
  }

  lemma {:induction false} BlanksHaveNoBrace(s: string)
    requires Blanks(s)
    ensures NoBrace(s)
  {
    if s != "" { BlanksHaveNoBrace(s[1..]); }
  }

  lemma {:induction false} BraceFound(s: string, u: string)
    requires NoBrace(s)
    ensures FirstBrace(s + (['}'] + u)) == Some(|s|)
    decreases |s|
  {
    if s == "" {
      assert s + (['}'] + u) == ['}'] + u;
    } else {
      assert (s + (['}'] + u))[1..] == s[1..] + (['}'] + u);
      BraceFound(s[1..], u);
    }
  }

  lemma {:induction false} NoBraceBefore(s: string)
    ensures FirstBrace(s).Some? ==> NoBrace(s[..FirstBrace(s).value])
    decreases |s|
  {
    if s != "" && s[0] != '{' && s[0] != '}' {
      NoBraceBefore(s[1..]);
      if FirstBrace(s).Some? {
        assert s[..FirstBrace(s).value][1..] == s[1..][..FirstBrace(s[1..]).value];
      }
    }
  }

  lemma {:induction false} NoBraceInside(a: string, b: string, c: string)
    requires NoBrace(a + b + c)
    ensures NoBrace(b)
    decreases |a| + |b|
  {
    var s := a + b + c;
    if a != "" {
      assert s[1..] == a[1..] + b + c;
      NoBraceInside(a[1..], b, c);
    } else if b != "" {
      assert s[0] == b[0] && s[1..] == "" + b[1..] + c;
      NoBraceInside("", b[1..], c);
    }
  }

  // ---------- Printed templates are read back ----------

  lemma {:induction false} TextReads(text: string, u: string, lit: string, done: seq<Segment>)
    ensures Parse(Doubled(text) + u, lit, done) == Parse(u, lit + text, done)
    decreases |text|
  {
    if text == "" {
      assert Doubled(text) + u == u && lit + text == lit;
    } else {
      var c, more := text[0], Doubled(text[1..]) + u;
      CharReads(c, more, lit, done);
      OneDoubled(c);
      assert Doubled(text) + u == Doubled([c]) + more;
      TextReads(text[1..], u, lit + [c], done);
      assert lit + [c] + text[1..] == lit + text;
    }
  }

  lemma CharReads(c: char, u: string, lit: string, done: seq<Segment>)
    ensures Parse(Doubled([c]) + u, lit, done) == Parse(u, lit + [c], done)
  {
    OneDoubled(c);
    var s := Doubled([c]) + u;
    assert s[0] == c;
    if c == '{' || c == '}' {
      assert s[1] == c && s[2..] == u;
    } else {
      assert s[1..] == u;
    }
  }

  lemma SlotReads(pre: string, expr: string, post: string, u: string, lit: string, done: seq<Segment>)
    requires PieceOk(Slot(pre, expr, post))
    ensures Parse(['{'] + ((pre + expr + post) + ['}']) + u, lit, done) == Parse(u, "", Flushed(done, lit) + [Hole(expr)])
  {
    hide Trim, FirstBrace, Blanks;
    var inside := pre + expr + post;
    var s, t := ['{'] + (inside + ['}']) + u, inside + (['}'] + u);
    assert s[1..] == t;
    BlanksHaveNoBrace(pre);
    BlanksHaveNoBrace(post);
    NoBraceJoins(pre, expr);
    NoBraceJoins(pre + expr, post);
    assert inside != "" && s[1] == inside[0];
    BraceFound(inside, u);
    TrimsSlot(pre, expr, post);
    assert t[..|inside|] == inside && t[|inside|] == '}' && t[|inside| + 1..] == u;
  }

  lemma {:induction false} PrintedReads(ps: seq<Piece>, done: seq<Segment>)
    requires Normal(ps)
    ensures Parse(Print(ps), "", done) == Parsed(done + Meanings(ps))
    decreases |ps|
  {
    if ps == [] {
      assert done + [] == done;
    } else if ps[0].Slot? {
      var p := ps[0];
      SlotReads(p.pre, p.expr, p.post, Print(ps[1..]), "", done);
      PrintedReads(ps[1..], done + [Hole(p.expr)]);
      assert done + [Hole(p.expr)] + Meanings(ps[1..]) == done + Meanings(ps);
    } else {
      var lit := ps[0].text;
      TextReads(lit, Print(ps[1..]), "", done);
      assert "" + lit == lit;
      if |ps| == 1 {
        assert ps[1..] == [] && done + [Literal(lit)] == done + Meanings(ps);
      } else {
        var p := ps[1];
        assert ps[1..][1..] == ps[2..] && ps[1..][0] == p;
        SlotReads(p.pre, p.expr, p.post, Print(ps[2..]), lit, done);
        PrintedReads(ps[2..], done + [Literal(lit)] + [Hole(p.expr)]);
        assert Meanings(ps[1..]) == [Hole(p.expr)] + Meanings(ps[2..]);
        assert done + [Literal(lit)] + [Hole(p.expr)] + Meanings(ps[2..]) == done + Meanings(ps);
      }
    }
  }

  // ---------- Accepted templates are printed ones ----------

  function Pending(lit: string): seq<Piece> { if lit == "" then [] else [Text(lit)] }

  lemma {:induction false} WasPrinted(s: string, lit: string, done: seq<Segment>) returns (ps: seq<Piece>)
    requires Parse(s, lit, done).Parsed?
    ensures Normal(ps) && Doubled(lit) + s == Print(ps) && Parse(s, lit, done).segments == done + Meanings(ps)
    decreases |s|
  {
    if s == "" {
      ps := Pending(lit);
      PendingPrints(lit, []);
      assert Pending(lit) + [] == Pending(lit) && Doubled(lit) + "" == Doubled(lit) && done + [] == done;
    } else if s[0] == '{' && !(|s| > 1 && s[1] == '{') {
      ps := HoleWasPrinted(s, lit, done);
    } else {
      hide Print, Meanings, Normal;
      var k := OneCharParsed(s, lit, done);
      ps := WasPrinted(s[k..], lit + [s[0]], done);
    }
  }

  lemma OneCharParsed(s: string, lit: string, done: seq<Segment>) returns (k: nat)
    requires s != "" && !(s[0] == '{' && !(|s| > 1 && s[1] == '{')) && Parse(s, lit, done).Parsed?
    ensures 0 < k <= |s| && Parse(s, lit, done) == Parse(s[k..], lit + [s[0]], done)
    ensures Doubled(lit) + s == Doubled(lit + [s[0]]) + s[k..]
  {
    k := if s[0] == '{' || s[0] == '}' then 2 else 1;
    DoubledSnoc(lit, s[0]);
    OneDoubled(s[0]);
    assert s == Doubled([s[0]]) + s[k..];
    assert Doubled(lit) + (Doubled([s[0]]) + s[k..]) == (Doubled(lit) + Doubled([s[0]])) + s[k..];
  }

  lemma PendingPrints(lit: string, ps: seq<Piece>)
    requires Normal(ps) && (ps != [] ==> ps[0].Slot?)
    ensures Normal(Pending(lit) + ps) && Print(Pending(lit) + ps) == Doubled(lit) + Print(ps)
    ensures forall done: seq<Segment> :: done + Meanings(Pending(lit) + ps) == Flushed(done, lit) + Meanings(ps)
  {
    if lit == "" {
      assert Pending(lit) + ps == ps && Doubled("") + Print(ps) == Print(ps);
    } else {
      assert (Pending(lit) + ps)[1..] == ps;
      forall done: seq<Segment>
        ensures done + Meanings(Pending(lit) + ps) == Flushed(done, lit) + Meanings(ps)
      {
        assert done + ([Literal(lit)] + Meanings(ps)) == done + [Literal(lit)] + Meanings(ps);
      }
    }
  }

  lemma {:induction false} HoleWasPrinted(s: string, lit: string, done: seq<Segment>) returns (ps: seq<Piece>)
    requires s != "" && s[0] == '{' && !(|s| > 1 && s[1] == '{') && Parse(s, lit, done).Parsed?
    ensures Normal(ps) && Doubled(lit) + s == Print(ps) && Parse(s, lit, done).segments == done + Meanings(ps)
    decreases |s|, 0
  {
    hide Parse, ParseHole, Trim, FirstBrace, Print, Meanings, Normal, Flushed, Pending, NoBrace, PieceOk;
    var k := HoleParses(s, lit, done);
    var inside, rest := s[1..][..k], s[1..][k + 1..];
    var more := WasPrinted(rest, "", Flushed(done, lit) + [Hole(Trim(inside))]);
    assert Doubled("") + rest == rest;
    var slot := AsSlot(s[1..], k);
    SlotInFront(slot, more, Flushed(done, lit));
    PendingPrints(lit, [slot] + more);
    ps := Pending(lit) + ([slot] + more);
  }

  lemma HoleParses(s: string, lit: string, done: seq<Segment>) returns (k: nat)
    requires s != "" && s[0] == '{' && !(|s| > 1 && s[1] == '{') && Parse(s, lit, done).Parsed?
    ensures k + 1 < |s| && s == ['{'] + (s[1..][..k] + ['}']) + s[1..][k + 1..]
    ensures FirstBrace(s[1..]) == Some(k) && Trim(s[1..][..k]) != ""
    ensures Parse(s, lit, done) == Parse(s[1..][k + 1..], "", Flushed(done, lit) + [Hole(Trim(s[1..][..k]))])
  {
    hide Trim, FirstBrace;
    k := FirstBrace(s[1..]).value;
    var t := s[1..];
    assert t == t[..k] + [t[k]] + t[k + 1..];
  }

  lemma AsSlot(t: string, k: nat) returns (slot: Piece)
    requires FirstBrace(t) == Some(k) && Trim(t[..k]) != ""
    ensures slot.Slot? && PieceOk(slot) && slot.expr == Trim(t[..k]) && slot.pre + slot.expr + slot.post == t[..k]
  {
    hide Trim;
    var pre, post := TrimSplits(t[..k]);
    NoBraceBefore(t);
    NoBraceInside(pre, Trim(t[..k]), post);
    slot := Slot(pre, Trim(t[..k]), post);
  }

  lemma SlotInFront(slot: Piece, more: seq<Piece>, done: seq<Segment>)
    requires slot.Slot? && PieceOk(slot) && Normal(more)
    ensures Normal([slot] + more) && ([slot] + more)[0].Slot?
    ensures Print([slot] + more) == ['{'] + ((slot.pre + slot.expr + slot.post) + ['}']) + Print(more)
    ensures done + Meanings([slot] + more) == done + [Hole(slot.expr)] + Meanings(more)
  {
    assert ([slot] + more)[1..] == more;
  }

  /** A template is accepted exactly when it is written this way, and then as what is written. */
  lemma AcceptsExactlyPrinted(s: string, segments: seq<Segment>)
    ensures Parse(s, "", []) == Parsed(segments) <==> exists ps :: Normal(ps) && s == Print(ps) && segments == Meanings(ps)
  {
    if Parse(s, "", []) == Parsed(segments) {
      var ps := WasPrinted(s, "", []);
      assert Doubled("") + s == s && [] + Meanings(ps) == Meanings(ps);
      assert Normal(ps) && s == Print(ps) && segments == Meanings(ps);
    }
    if ps :| Normal(ps) && s == Print(ps) && segments == Meanings(ps) {
      PrintedReads(ps, []);
      assert [] + Meanings(ps) == Meanings(ps);
    }
  }

  // ---------- Rendering ----------

  /** The expressions, in order of first occurrence. */
  function Distinct(ss: seq<Segment>): seq<string> {
    if ss == [] then []
    else
      var s, before := ss[|ss| - 1], Distinct(ss[..|ss| - 1]);
      if s.Hole? && s.expr !in before then before + [s.expr] else before
  }

  method DistinctPlaceholders(ss: seq<Segment>) returns (out: seq<string>)
    ensures out == Distinct(ss)
  {
    out := [];
    var seen: set<string> := {};
    for i := 0 to |ss|
      invariant out == Distinct(ss[..i]) && forall e :: e in seen <==> e in out
    {
      assert ss[..i + 1][..i] == ss[..i];
      if ss[i].Hole? && ss[i].expr !in seen {
        seen := seen + {ss[i].expr};
        out := out + [ss[i].expr];
      }
    }
    assert ss[..|ss|] == ss;
  }

  lemma {:induction false} DistinctIsDistinct(ss: seq<Segment>)
    ensures forall i, j :: 0 <= i < j < |Distinct(ss)| ==> Distinct(ss)[i] != Distinct(ss)[j]
    ensures forall e :: e in Distinct(ss) <==> Hole(e) in ss
  {
    if ss != [] {
      DistinctIsDistinct(ss[..|ss| - 1]);
      assert ss == ss[..|ss| - 1] + [ss[|ss| - 1]];
    }
  }

  type Resolver = string -> Option<string>

  function Value(resolve: Resolver, s: Segment): Option<string> {
    match s
    case Literal(text) => Some(text)
    case Hole(expr) => resolve(expr)
  }

  /** All segments in their place, or nothing when one of them has no value. */
  function Filled(resolve: Resolver, ss: seq<Segment>): Option<string> {
    if ss == [] then Some("")
    else
      var before, last := Filled(resolve, ss[..|ss| - 1]), Value(resolve, ss[|ss| - 1]);
      if before.None? || last.None? then None else Some(before.value + last.value)
  }

  /** `calls` is what the resolver was asked, in order: every expression once, up to the first it cannot
      resolve. */
  method Render(ss: seq<Segment>, resolve: Resolver) returns (ok: bool, out: string, ghost calls: seq<string>)
    ensures ok <==> Filled(resolve, ss).Some?
    ensures ok ==> Some(out) == Filled(resolve, ss) && calls == Distinct(ss)
    ensures !ok ==> calls <= Distinct(ss) && calls != [] && resolve(calls[|calls| - 1]).None?
    ensures !ok ==> forall k :: 0 <= k < |calls| - 1 ==> resolve(calls[k]).Some?
  {
    out, calls := "", [];
    var cache: map<string, string> := map[];
    for i := 0 to |ss|
      invariant Filled(resolve, ss[..i]) == Some(out) && calls == Distinct(ss[..i])
      invariant forall e :: e in cache <==> e in calls
      invariant forall e :: e in cache ==> resolve(e) == Some(cache[e])
    {
      assert ss[..i + 1][..i] == ss[..i];
      match ss[i]
      case Literal(text) => out := out + text;
      case Hole(expr) =>
        if expr !in cache {
          calls := calls + [expr];
          var value := resolve(expr);
          if value.None? {
            FailureStays(resolve, ss, i + 1);
            return false, "", calls;
          }
          cache := cache[expr := value.value];
        }
        out := out + cache[expr];
    }
    assert ss[..|ss|] == ss;
    ok := true;
  }

  lemma {:induction false} FailureStays(resolve: Resolver, ss: seq<Segment>, i: nat)
    requires i <= |ss| && Filled(resolve, ss[..i]).None?
    ensures Filled(resolve, ss).None? && Distinct(ss[..i]) <= Distinct(ss)
    decreases |ss|
  {
    if i == |ss| {
      assert ss[..i] == ss;
    } else {
      assert ss[..|ss| - 1][..i] == ss[..i];
      FailureStays(resolve, ss[..|ss| - 1], i);
    }
  }
}
