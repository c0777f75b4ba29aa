/** What pipelines accept. */
module PipelineResults {
  // What the pipeline loop accepts, how it recovers, and where its recovery makes no progress.

  import opened Tokens
  import opened Diagnostics
  import opened TokenBuffer
  import opened ExprParser
  import opened Spelling
  import opened PipelineParser

  // ---------- Recovery without progress ----------

  lemma NoSource(s: Stream)
    requires Head(s) != Identifier && Head(s) != ColonColon
    ensures ParseSource(s) == Parsed([HeadText(s)], s, 1)
  {
    assert Expect(s, Identifier) == (s, 1);
    assert ParseRef([HeadText(s)], s) == ([HeadText(s)], s);
  }

  lemma RestartStaysPut(s: Stream)
    requires IsRestart(Head(s))
    ensures ParseEdge(s) == Parsed([], s, 3)
  {
    NoSource(s);
    assert Expect(s, Arrow) == (s, 1);
    assert ParseTarget(s) == Parsed([], s, 1);
  }

  /** A round that is not at the end of the list consumes nothing exactly when recovery stops at
      once, on a keyword that could start a declaration. */
  lemma StallsExactlyAtRestart(s: Stream)
    requires !EdgesEnd(s)
    ensures ParseEdge(s).rest == s <==> IsRestart(Head(s))
    ensures IsRestart(Head(s)) ==> ParseEdge(s) == Parsed([], s, 3)
  {
    var source := ParseSource(s);
    var arrow := Expect(source.rest, Arrow);
    if IsRestart(Head(s)) {
      RestartStaysPut(s);
    } else if Head(s) == KW_stage {
      assert |Resync(s)| < |s|;
    } else if |arrow.0| == |s| {
      if Head(s) != ColonColon { NoSource(s); }
      assert |ParseTarget(arrow.0).rest| < |s|;
    }
  }

  /** Then the loop reports the same errors until the cap, keeps everything unread, and adds no edge. */
  lemma {:induction false} RestartSpendsTheBudget(acc: Parsed<seq<Edge>>, before: nat)
    requires IsRestart(Head(acc.rest))
    ensures var r := ParseEdges(acc, before);
            r.value == acc.value && r.rest == acc.rest && before + r.errors >= MAX_ERRORS
    decreases MAX_ERRORS - Capped(before + acc.errors)
  {
    if before + acc.errors < MAX_ERRORS {
      RestartStaysPut(acc.rest);
      assert acc.value + [] == acc.value;
      assert AddEdge(acc) == Parsed(acc.value, acc.rest, acc.errors + 3);
      RestartSpendsTheBudget(AddEdge(acc), before);
    }
  }

  // ---------- The printer ----------

  function PrintRefTail(name: seq<string>): Stream {
    if name == [] then [] else Sym(ColonColon) + ([Lexeme(Identifier, name[0])] + PrintRefTail(name[1..]))
  }

  function PrintRef(name: seq<string>): Stream
    requires name != []
  {
    [Lexeme(Identifier, name[0])] + PrintRefTail(name[1..])
  }

  predicate EdgeOk(e: Edge) {
    e.source != [] && (e.target.Callee? ==> e.target.name != [])
  }

  predicate EdgesOk(es: seq<Edge>) {
    es == [] || (EdgeOk(es[0]) && EdgesOk(es[1..]))
  }

  function PrintTarget(t: Target): Stream
    requires t.Callee? ==> t.name != []
  {
    match t
    case Terminal(text) => [Lexeme(KW_void, text)]
    case Callee(name) => PrintRef(name)
  }

  function PrintEdge(e: Edge): Stream
    requires EdgeOk(e)
  {
    PrintRef(e.source) + (Sym(Arrow) + (PrintTarget(e.target) + Sym(Semicolon)))
  }

  function PrintEdges(es: seq<Edge>): Stream
    requires EdgesOk(es)
  {
    if es == [] then [] else PrintEdge(es[0]) + PrintEdges(es[1..])
  }

  // ---------- Printed edges are read back ----------

  lemma RefTailStarts(name: seq<string>, u: Stream)
    requires name != []
    ensures var s := PrintRefTail(name) + u;
            Head(s) == ColonColon && Second(s) == Identifier && HeadText(Tail(s)) == name[0] &&
            Tail(Tail(s)) == PrintRefTail(name[1..]) + u
  {
    hide Spell;
    var colons, part, more := Sym(ColonColon)[0], Lexeme(Identifier, name[0]), PrintRefTail(name[1..]);
    PairUp(colons, part, more);
    TwoAhead(PrintRefTail(name), colons, part, more, u);
  }

  lemma {:induction false} RefReads(done: seq<string>, name: seq<string>, u: Stream)
    requires Head(u) != ColonColon
    ensures ParseRef(done, PrintRefTail(name) + u) == (done + name, u)
    decreases |name|
  {
    if name == [] {
      assert PrintRefTail(name) + u == u && done + name == done;
    } else {
      var more := PrintRefTail(name[1..]) + u;
      RefTailStarts(name, u);
      RefReads(done + [name[0]], name[1..], u);
      assert done + [name[0]] + name[1..] == done + name;
    }
  }

  lemma RefStarts(name: seq<string>, u: Stream)
    requires name != []
    ensures var s := PrintRef(name) + u;
            Head(s) == Identifier && HeadText(s) == name[0] && Tail(s) == PrintRefTail(name[1..]) + u
  {
    assert PrintRef(name) + u == [Lexeme(Identifier, name[0])] + (PrintRefTail(name[1..]) + u);
  }

  lemma SourceReads(name: seq<string>, u: Stream)
    requires name != [] && Head(u) != ColonColon
    ensures ParseSource(PrintRef(name) + u) == Parsed(name, u, 0)
  {
    RefStarts(name, u);
    RefReads([name[0]], name[1..], u);
    assert [name[0]] + name[1..] == name;
  }

  lemma TargetReads(t: Target, u: Stream)
    requires (t.Callee? ==> t.name != []) && Head(u) != ColonColon
    ensures ParseTarget(PrintTarget(t) + u) == Parsed([t], u, 0)
  {
    if t.Callee? {
      RefStarts(t.name, u);
      RefReads([t.name[0]], t.name[1..], u);
      assert [t.name[0]] + t.name[1..] == t.name;
    }
  }

  lemma EdgeReads(e: Edge, u: Stream)
    requires EdgeOk(e)
    ensures ParseEdge(PrintEdge(e) + u) == Parsed([e], u, 0) && Head(PrintEdge(e) + u) == Identifier
  {
    var end := Sym(Semicolon) + u;
    var target := PrintTarget(e.target) + end;
    Reassociate(Sym(Arrow), PrintTarget(e.target), Sym(Semicolon), u);
    Assoc(PrintRef(e.source), Sym(Arrow) + (PrintTarget(e.target) + Sym(Semicolon)), u);
    SymHead(Semicolon, u);
    SymHead(Arrow, target);
    RefStarts(e.source, Sym(Arrow) + target);
    SourceReads(e.source, Sym(Arrow) + target);
    TargetReads(e.target, end);
  }

  lemma OneEdgeRead(done: seq<Edge>, e: Edge, u: Stream, errors: nat, before: nat)
    requires EdgeOk(e) && before + errors < MAX_ERRORS
    ensures ParseEdges(Parsed(done, PrintEdge(e) + u, errors), before) == ParseEdges(Parsed(done + [e], u, errors), before)
  {
    EdgeReads(e, u);
    var acc := Parsed(done, PrintEdge(e) + u, errors);
    assert !EdgesEnd(acc.rest);
    assert AddEdge(acc) == Parsed(done + [e], u, errors);
  }

  /** Printed edges are read back, whatever was read before them and whatever follows. */
  lemma {:induction false} EdgesRead(done: seq<Edge>, es: seq<Edge>, u: Stream, errors: nat, before: nat)
    requires EdgesOk(es) && before + errors < MAX_ERRORS
    ensures ParseEdges(Parsed(done, PrintEdges(es) + u, errors), before) == ParseEdges(Parsed(done + es, u, errors), before)
    decreases |es|
  {
    if es == [] {
      assert PrintEdges(es) + u == u && done + es == done;
    } else {
      FirstEdge(done, es, u);
      OneEdgeRead(done, es[0], PrintEdges(es[1..]) + u, errors, before);
      EdgesRead(done + [es[0]], es[1..], u, errors, before);
    }
  }

  lemma FirstEdge(done: seq<Edge>, es: seq<Edge>, u: Stream)
    requires EdgesOk(es) && es != []
    ensures PrintEdges(es) + u == PrintEdge(es[0]) + (PrintEdges(es[1..]) + u)
    ensures done + [es[0]] + es[1..] == done + es
  {
    Assoc(PrintEdge(es[0]), PrintEdges(es[1..]), u);
  }

  lemma {:induction false} SkipsRef(name: seq<string>, u: Stream)
    requires Head(u) != ColonColon
    ensures SkipQualified(PrintRefTail(name) + u) == u
    decreases |name|
  {
    if name == [] {
      assert PrintRefTail(name) + u == u;
    } else {
      RefTailStarts(name, u);
      SkipsRef(name[1..], u);
    }
  }

  /** A printed list of edges is also told apart as a pipeline by the look past its first name. */
  lemma PrintedEdgesArePipeline(es: seq<Edge>, u: Stream)
    requires EdgesOk(es) && es != []
    ensures StartsPipeline(PrintEdges(es) + u)
  {
    var e := es[0];
    var target := PrintTarget(e.target) + Sym(Semicolon);
    var after := target + (PrintEdges(es[1..]) + u);
    Reassociate(PrintRef(e.source), Sym(Arrow), target, PrintEdges(es[1..]) + u);
    Assoc(PrintEdge(e), PrintEdges(es[1..]), u);
    RefStarts(e.source, Sym(Arrow) + after);
    SymHead(Arrow, after);
    SkipsRef(e.source[1..], Sym(Arrow) + after);
    if |e.source| == 1 {
      assert PrintRefTail(e.source[1..]) + (Sym(Arrow) + after) == Sym(Arrow) + after;
    }
  }

  // ---------- Nothing else is accepted ----------

  lemma {:induction false} RefWasPrinted(done: seq<string>, s: Stream)
    requires WellSpelled(s)
    ensures var r := ParseRef(done, s);
            done <= r.0 && s == PrintRefTail(r.0[|done|..]) + r.1 && WellSpelled(r.1)
    decreases |s|
  {
    hide WellSpelled, PrintRefTail;
    NoTail();
    if Head(s) == ColonColon && Second(s) == Identifier {
      HeadSpelt(s);
      TailSpelled(s);
      TailSpelled(Tail(s));
      var next := done + [HeadText(Tail(s))];
      var r := ParseRef(next, Tail(Tail(s)));
      RefWasPrinted(next, Tail(Tail(s)));
      assert Tail(s) == s[1..] && Tail(Tail(s)) == s[2..];
      BehindDone(done, HeadText(Tail(s)), r.0);
      PairWasPrinted(s, r.0[|done|..], r.0[|next|..], r.1);
    } else {
      assert ParseRef(done, s) == (done, s) && done[|done|..] == [];
    }
  }

  lemma NoTail()
    ensures PrintRefTail([]) == []
  {
  }

  lemma BehindDone(done: seq<string>, part: string, all: seq<string>)
    requires done + [part] <= all
    ensures done <= all && all[|done|..] != [] && all[|done|..][0] == part
    ensures all[|done|..][1..] == all[|done + [part]|..]
  {
  }

  lemma PairWasPrinted(s: Stream, name: seq<string>, more: seq<string>, u: Stream)
    requires |s| >= 2 && s[0] == Lexeme(ColonColon, "::") && s[1] == Lexeme(Identifier, s[1].text)
    requires name != [] && name[0] == s[1].text && name[1..] == more && s[2..] == PrintRefTail(more) + u
    ensures s == PrintRefTail(name) + u
  {
    assert s[0] == Sym(ColonColon)[0];
    FrontTwo(s, s[0], s[1]);
    PairUp(s[0], s[1], PrintRefTail(more));
    Assoc([s[0], s[1]], PrintRefTail(more), u);
  }

  lemma FrontTwo(s: Stream, a: Lexeme, b: Lexeme)
    requires |s| >= 2 && s[0] == a && s[1] == b
    ensures s == [a, b] + s[2..]
  {
  }

  lemma NameWasPrinted(s: Stream)
    requires WellSpelled(s) && Head(s) == Identifier
    ensures var r := ParseRef([HeadText(s)], Tail(s));
            r.0 != [] && s == PrintRef(r.0) + r.1 && WellSpelled(r.1)
  {
    hide WellSpelled;
    TailSpelled(s);
    var name := HeadText(s);
    var r := ParseRef([name], Tail(s));
    RefWasPrinted([name], Tail(s));
    NameInFront(s, name, r.0, r.1);
  }

  lemma NameInFront(s: Stream, name: string, parts: seq<string>, u: Stream)
    requires s != [] && s[0] == Lexeme(Identifier, name) && [name] <= parts && Tail(s) == PrintRefTail(parts[1..]) + u
    ensures s == PrintRef(parts) + u
  {
    hide PrintRefTail;
    assert s == [s[0]] + Tail(s) && parts[0] == name;
  }

  lemma TargetWasPrinted(s: Stream)
    requires WellSpelled(s) && ParseTarget(s).errors == 0
    ensures var r := ParseTarget(s);
            && |r.value| == 1 && (r.value[0].Callee? ==> r.value[0].name != [])
            && s == PrintTarget(r.value[0]) + r.rest && WellSpelled(r.rest)
  {
    hide WellSpelled;
    if Head(s) == Identifier {
      NameWasPrinted(s);
    } else {
      assert s == [Lexeme(KW_void, HeadText(s))] + Tail(s);
      TailSpelled(s);
    }
  }

  lemma EdgeWasPrinted(s: Stream)
    requires WellSpelled(s) && ParseEdge(s).errors == 0
    ensures var r := ParseEdge(s);
            |r.value| == 1 && EdgeOk(r.value[0]) && s == PrintEdge(r.value[0]) + r.rest && WellSpelled(r.rest)
  {
    hide WellSpelled, ParseTarget, PrintTarget;
    var source := ParseSource(s);
    NameWasPrinted(s);
    SpeltHead(source.rest);
    var t := Tail(source.rest);
    var target := ParseTarget(t);
    TargetWasPrinted(t);
    SpeltHead(target.rest);
    var e := ParseEdge(s).value[0];
    var u := Tail(target.rest);
    Reassociate(Sym(Arrow), PrintTarget(e.target), Sym(Semicolon), u);
    Assoc(PrintRef(e.source), Sym(Arrow) + (PrintTarget(e.target) + Sym(Semicolon)), u);
  }

  lemma {:induction false} EdgesWerePrinted(acc: Parsed<seq<Edge>>, before: nat)
    requires WellSpelled(acc.rest) && ParseEdges(acc, before).errors == acc.errors && before + acc.errors < MAX_ERRORS
    ensures var r := ParseEdges(acc, before);
            EdgesOk(r.value[|acc.value|..]) && acc.rest == PrintEdges(r.value[|acc.value|..]) + r.rest
    decreases |acc.rest|
  {
    var r := ParseEdges(acc, before);
    if EdgesEnd(acc.rest) {
      assert r.value[|acc.value|..] == [];
    } else {
      hide ParseEdge, PrintEdge, WellSpelled;
      var edge := ParseEdge(acc.rest);
      assert edge.errors == 0;
      EdgeWasPrinted(acc.rest);
      EdgesWerePrinted(AddEdge(acc), before);
      var n := |acc.value|;
      OneFirst(acc.value, edge.value[0], r.value);
      Assoc(PrintEdge(edge.value[0]), PrintEdges(r.value[n + 1..]), r.rest);
    }
  }

  lemma OneFirst(done: seq<Edge>, e: Edge, all: seq<Edge>)
    requires done + [e] <= all
    ensures all[|done|..] == [e] + all[|done| + 1..] && all[|done|..][1..] == all[|done| + 1..]
  {
    assert all[|done|] == (done + [e])[|done|];
  }

  /** The loop reports no error exactly on the printed lists of edges that a `}` or the end of the
      input follows, and then returns those edges and leaves exactly that. */
  lemma {:induction false} AcceptsExactlyPrintedEdges(s: Stream, es: seq<Edge>, u: Stream, before: nat)
    requires WellSpelled(s) && before < MAX_ERRORS
    ensures ParseEdges(Parsed([], s, 0), before) == Parsed(es, u, 0) <==>
            EdgesOk(es) && EdgesEnd(u) && s == PrintEdges(es) + u
  {
    var r := ParseEdges(Parsed([], s, 0), before);
    if r == Parsed(es, u, 0) {
      EdgesWerePrinted(Parsed([], s, 0), before);
      assert r.value[0..] == es;
    }
    if EdgesOk(es) && EdgesEnd(u) && s == PrintEdges(es) + u {
      EdgesRead([], es, u, 0, before);
      assert [] + es == es;
    }
  }

  // ---------- Errors stay local ----------

  /** Tokens recovery skips. */
  predicate Skipped(s: Stream) {
    s == [] || (Head(s) != Semicolon && Head(s) != RCurly && !IsRestart(Head(s)) && Skipped(s[1..]))
  }

  lemma {:induction false} ResyncSkips(junk: Stream, u: Stream)
    requires Skipped(junk)
    ensures Resync(junk + (Sym(Semicolon) + u)) == u
    decreases |junk|
  {
    var s := junk + (Sym(Semicolon) + u);
    if junk == [] {
      assert s == Sym(Semicolon) + u;
      SymHead(Semicolon, u);
    } else {
      assert Tail(s) == junk[1..] + (Sym(Semicolon) + u);
      ResyncSkips(junk[1..], u);
    }
  }

  /** A statement that cannot even start an edge. */
  predicate NoEdge(junk: Stream) {
    junk != [] && Skipped(junk) && Head(junk) != Eof && Head(junk) != Identifier && Head(junk) != ColonColon && Head(junk) != Arrow &&
    Head(junk) != KW_void
  }

  lemma {:induction false} JunkIsSkipped(junk: Stream, u: Stream)
    requires NoEdge(junk)
    ensures ParseEdge(junk + (Sym(Semicolon) + u)) == Parsed([], u, if Head(junk) == KW_stage then 1 else 3)
  {
    var s := junk + (Sym(Semicolon) + u);
    assert Head(s) == Head(junk);
    ResyncSkips(junk, u);
    if Head(junk) != KW_stage {
      NoSource(s);
      assert Expect(s, Arrow) == (s, 1);
      assert ParseTarget(s) == Parsed([], u, 1);
    }
  }

  /** An edge whose right end is missing or is no function name. */
  predicate BrokenEdge(name: seq<string>, junk: Stream) {
    name != [] && Skipped(junk) && (junk == [] || (Head(junk) != Eof && Head(junk) != KW_void && Head(junk) != Identifier))
  }

  lemma BrokenEdgeIsSkipped(name: seq<string>, junk: Stream, u: Stream)
    requires BrokenEdge(name, junk)
    ensures ParseEdge(PrintRef(name) + (Sym(Arrow) + (junk + (Sym(Semicolon) + u)))) == Parsed([], u, 1)
  {
    hide PrintRef, Resync;
    var end := junk + (Sym(Semicolon) + u);
    SymHead(Arrow, end);
    SourceReads(name, Sym(Arrow) + end);
    RefStarts(name, Sym(Arrow) + end);
    ResyncSkips(junk, u);
    SymHead(Semicolon, u);
    assert junk == [] ==> end == Sym(Semicolon) + u;
    assert junk != [] ==> Head(end) == Head(junk);
    assert ParseTarget(end) == Parsed([], u, 1);
  }

  /** Statements that yield no edge and cost so many errors. */
  ghost predicate Bad(s: Stream, errors: nat) {
    || (NoEdge(s) && errors == if Head(s) == KW_stage then 1 else 3)
    || (errors == 1 && exists name, junk :: BrokenEdge(name, junk) && s == PrintRef(name) + (Sym(Arrow) + junk))
  }

  lemma BadIsSkipped(s: Stream, errors: nat, u: Stream)
    requires Bad(s, errors)
    ensures ParseEdge(s + (Sym(Semicolon) + u)) == Parsed([], u, errors) && !EdgesEnd(s + (Sym(Semicolon) + u))
  {
    if NoEdge(s) && errors == (if Head(s) == KW_stage then 1 else 3) {
      JunkIsSkipped(s, u);
      assert Head(s + (Sym(Semicolon) + u)) == Head(s);
    } else {
      var name, junk :| BrokenEdge(name, junk) && s == PrintRef(name) + (Sym(Arrow) + junk);
      var end := Sym(Semicolon) + u;
      BrokenEdgeIsSkipped(name, junk, u);
      Assoc(PrintRef(name), Sym(Arrow) + junk, end);
      Assoc(Sym(Arrow), junk, end);
      RefStarts(name, Sym(Arrow) + (junk + end));
    }
  }

  /** A statement as it stands in a pipeline. */
  datatype Statement = Sound(edge: Edge) | Unsound(junk: Stream, errors: nat)

  ghost predicate StatementsOk(ss: seq<Statement>) {
    ss == [] || ((if ss[0].Sound? then EdgeOk(ss[0].edge) else Bad(ss[0].junk, ss[0].errors)) && StatementsOk(ss[1..]))
  }

  function PrintStatement(s: Statement): Stream
    requires s.Sound? ==> EdgeOk(s.edge)
  {
    if s.Sound? then PrintEdge(s.edge) else s.junk + Sym(Semicolon)
  }

  ghost function PrintStatements(ss: seq<Statement>): Stream
    requires StatementsOk(ss)
  {
    if ss == [] then [] else PrintStatement(ss[0]) + PrintStatements(ss[1..])
  }

  function SoundEdges(ss: seq<Statement>): seq<Edge> {
    if ss == [] then [] else (if ss[0].Sound? then [ss[0].edge] else []) + SoundEdges(ss[1..])
  }

  function ErrorsIn(ss: seq<Statement>): nat {
    if ss == [] then 0 else (if ss[0].Sound? then 0 else ss[0].errors) + ErrorsIn(ss[1..])
  }

  lemma OneStatementRead(done: seq<Edge>, s: Statement, u: Stream, errors: nat, before: nat)
    requires (if s.Sound? then EdgeOk(s.edge) else Bad(s.junk, s.errors)) && before + errors < MAX_ERRORS
    ensures ParseEdges(Parsed(done, PrintStatement(s) + u, errors), before) ==
            if s.Sound? then ParseEdges(Parsed(done + [s.edge], u, errors), before)
            else ParseEdges(Parsed(done, u, errors + s.errors), before)
  {
    hide Bad, PrintEdge, ParseEdge;
    if s.Sound? {
      OneEdgeRead(done, s.edge, u, errors, before);
    } else {
      BadIsSkipped(s.junk, s.errors, u);
      Assoc(s.junk, Sym(Semicolon), u);
      assert done + [] == done;
      assert AddEdge(Parsed(done, PrintStatement(s) + u, errors)) == Parsed(done, u, errors + s.errors);
    }
  }

  lemma EdgesJoin(a: seq<Edge>, b: seq<Edge>, c: seq<Edge>)
    ensures a + (b + c) == a + b + c && a + [] == a
  {
  }

  /** However edges and bad statements are mixed, every edge is found and every bad statement costs just
      its own errors, as long as the error budget lasts. */
  lemma {:induction false} ErrorsStayLocal(done: seq<Edge>, ss: seq<Statement>, u: Stream, errors: nat, before: nat)
    requires StatementsOk(ss) && before + errors + ErrorsIn(ss) < MAX_ERRORS
    ensures ParseEdges(Parsed(done, PrintStatements(ss) + u, errors), before) ==
            ParseEdges(Parsed(done + SoundEdges(ss), u, errors + ErrorsIn(ss)), before)
    decreases |ss|
  {
    hide Bad, ParseEdges, PrintStatement, EdgeOk;
    if ss == [] {
      assert PrintStatements(ss) + u == u && done + SoundEdges(ss) == done;
    } else {
      var rest := PrintStatements(ss[1..]) + u;
      Assoc(PrintStatement(ss[0]), PrintStatements(ss[1..]), u);
      OneStatementRead(done, ss[0], rest, errors, before);
      var more, cost := if ss[0].Sound? then [ss[0].edge] else [], if ss[0].Sound? then 0 else ss[0].errors;
      EdgesJoin(done, more, SoundEdges(ss[1..]));
      ErrorsStayLocal(done + more, ss[1..], u, errors + cost, before);
    }
  }
}
