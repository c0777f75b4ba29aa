/** Files with a flow. */
module WrittenFiles {
  // A whole file around a list of edges: what is accepted of it, as tokens and as text.

  import opened Tokens
  import opened TokenBuffer
  import opened Options
  import opened ExprParser
  import opened Spelling
  import opened Progress
  import opened Grammar
  import opened Written
  import opened Lexing
  import opened Layout
  import opened FrontEnd
  import opened PipelineParser
  import opened PipelineResults

  /** `namespace a { public: flow f { body } }` */
  function FlowFile(w: Words, a: string, f: string, body: Stream): Stream {
    K(w, KW_namespace, Id(a, K(w, LCurly, K(w, KW_public, K(w, Colon, K(w, KW_flow, Id(f, K(w, LCurly, body + Close(w)))))))))
  }

  function Close(w: Words): Stream { K(w, RCurly, K(w, RCurly, [])) }

  predicate Inner(s: Stream) {
    forall i :: 0 <= i < |s| ==> s[i].kind != RCurly && s[i].kind != Eof
  }

  lemma InnerJoins(a: Stream, b: Stream)
    ensures Inner(a + b) <==> Inner(a) && Inner(b)
  {
    assert forall i :: 0 <= i < |a| ==> (a + b)[i] == a[i];
    assert forall i :: 0 <= i < |b| ==> (a + b)[|a| + i] == b[i];
  }

  lemma {:induction false} RefIsInner(name: seq<string>)
    ensures Inner(PrintRefTail(name))
    decreases |name|
  {
    if name != [] {
      RefIsInner(name[1..]);
      InnerJoins(Sym(ColonColon) + [Lexeme(Identifier, name[0])], PrintRefTail(name[1..]));
    }
  }

  lemma EdgeIsInner(e: Edge)
    requires EdgeOk(e)
    ensures Inner(PrintEdge(e))
  {
    hide Inner;
    TokenIsInner(Lexeme(Identifier, e.source[0]));
    TokenIsInner(Sym(Arrow)[0]);
    TokenIsInner(Sym(Semicolon)[0]);
    RefIsInner(e.source[1..]);
    InnerJoins([Lexeme(Identifier, e.source[0])], PrintRefTail(e.source[1..]));
    if e.target.Callee? {
      TokenIsInner(Lexeme(Identifier, e.target.name[0]));
      RefIsInner(e.target.name[1..]);
      InnerJoins([Lexeme(Identifier, e.target.name[0])], PrintRefTail(e.target.name[1..]));
    } else {
      TokenIsInner(PrintTarget(e.target)[0]);
    }
    InnerJoins(PrintTarget(e.target), Sym(Semicolon));
    InnerJoins(Sym(Arrow), PrintTarget(e.target) + Sym(Semicolon));
    InnerJoins(PrintRef(e.source), Sym(Arrow) + (PrintTarget(e.target) + Sym(Semicolon)));
  }

  lemma TokenIsInner(x: Lexeme)
    requires x.kind != RCurly && x.kind != Eof
    ensures Inner([x])
  {
  }

  lemma {:induction false} EdgesAreInner(es: seq<Edge>)
    requires EdgesOk(es)
    ensures Inner(PrintEdges(es))
    decreases |es|
  {
    hide PrintEdge;
    if es != [] {
      EdgeIsInner(es[0]);
      EdgesAreInner(es[1..]);
      InnerJoins(PrintEdge(es[0]), PrintEdges(es[1..]));
    }
  }

  /** How many tokens there are before the first closing brace. */
  function Front(s: Stream): nat {
    if EdgesEnd(s) then 0 else 1 + Front(Tail(s))
  }

  lemma {:induction false} FrontIs(a: Stream, x: Stream)
    requires Inner(a) && EdgesEnd(x)
    ensures Front(a + x) == |a|
    decreases |a|
  {
    if a == [] {
      assert a + x == x;
    } else {
      assert Tail(a + x) == a[1..] + x && Head(a + x) == a[0].kind;
      FrontIs(a[1..], x);
    }
  }

  /** So two ways to split a list of tokens there are one. */
  lemma SplitOnce(a: Stream, x: Stream, b: Stream, y: Stream)
    requires a + x == b + y && Inner(a) && Inner(b) && EdgesEnd(x) && EdgesEnd(y)
    ensures a == b && x == y
  {
    FrontIs(a, x);
    FrontIs(b, y);
    assert a == (a + x)[..|a|] && x == (a + x)[|a|..] && b == (b + y)[..|b|] && y == (b + y)[|b|..];
  }

  lemma BodyIsEdges(w: Words, body: Stream)
    requires WellSpelled(body) && Inner(body)
    ensures Edges(body + Close(w)) == Some(Close(w)) || Edges(body + Close(w)) == None
    ensures Edges(body + Close(w)).Some? <==> exists es :: EdgesOk(es) && body == PrintEdges(es)
  {
    hide Edges;
    var s := body + Close(w);
    assert WellSpelled(s) by { CloseSpelled(w, body); }
    LoopAcceptsEdges(Parsed([], s, 0), 0);
    var r := ParseEdges(Parsed([], s, 0), 0);
    if Edges(s).Some? {
      AcceptsExactlyPrintedEdges(s, r.value, r.rest, 0);
      EdgesAreInner(r.value);
      SplitOnce(body, Close(w), PrintEdges(r.value), r.rest);
    }
    if es :| EdgesOk(es) && body == PrintEdges(es) {
      AcceptsExactlyPrintedEdges(s, es, Close(w), 0);
    }
  }

  lemma CloseSpelled(w: Words, body: Stream)
    requires WellSpelled(body)
    ensures WellSpelled(body + Close(w))
  {
  }

  /** The file is accepted exactly if its flow is a list of edges. */
  lemma FlowFileAccepted(w: Words, a: string, f: string, body: Stream)
    requires WellSpelled(body) && Inner(body)
    ensures File(FlowFile(w, a, f, body)).Some? <==> exists es :: EdgesOk(es) && body == PrintEdges(es)
  {
    hide K, Id, WellSpelled, Inner;
    BodyIsEdges(w, body);
    var flow := K(w, KW_flow, Id(f, K(w, LCurly, body + Close(w))));
    var end := K(w, RCurly, []);
    assert Flow(flow) == if Edges(body + Close(w)).Some? then Some(end) else None by { hide Edges; }
    hide Edges, Flow;
    FlowInSection(w, flow);
    hide NamespaceItems, File;
    OnlyNamespace(w, a, K(w, KW_public, K(w, Colon, flow)));
  }

  /** A file of one namespace. */
  lemma OnlyNamespace(w: Words, a: string, items: Stream)
    requires NamespaceItems(items) == Some(K(w, RCurly, [])) || NamespaceItems(items) == None
    ensures File(K(w, KW_namespace, Id(a, K(w, LCurly, items)))) == if NamespaceItems(items).Some? then Some([]) else None
  {
    hide K, Id, NamespaceItems;
    var open := K(w, LCurly, items);
    assert Path(Id(a, open)) == Some(open);
    hide Path;
    var file := K(w, KW_namespace, Id(a, open));
    assert Namespace(file) == if NamespaceItems(items).Some? then Some([]) else None;
    hide Namespace;
    assert TopLevel(file) == Namespace(file);
    assert File([]) == Some([]);
  }

  lemma FlowInSection(w: Words, flow: Stream)
    requires Head(flow) == KW_flow && (Flow(flow) == Some(K(w, RCurly, [])) || Flow(flow) == None)
    ensures NamespaceItems(K(w, KW_public, K(w, Colon, flow))) == Flow(flow)
  {
    hide K, Flow;
    var end := K(w, RCurly, []);
    MembersByFirstToken(flow);
    hide Member;
    assert SectionMembers(end) == Some(end);
    assert SectionMembers(flow) == Flow(flow);
    hide SectionMembers;
    var section := K(w, KW_public, K(w, Colon, flow));
    assert Section(section) == Flow(flow);
    hide Section;
    assert NamespaceItem(section) == Flow(flow);
    hide NamespaceItem;
    assert NamespaceItems(end) == Some(end);
  }

  /** And so is its text, in any layout. */
  lemma FlowTextAccepted(c: Config, w: Words, a: string, f: string, body: Stream, gaps: seq<seq<Piece>>)
    requires WellSpelled(body) && Inner(body)
    requires AllWritable(c, FlowFile(w, a, f, body)) && GapsOk(FlowFile(w, a, f, body), gaps)
    ensures File(Lexemes(TokensFrom(c, Write(FlowFile(w, a, f, body), gaps), 0))).Some? <==>
            exists es :: EdgesOk(es) && body == PrintEdges(es)
  {
    WrittenIsLexed(c, FlowFile(w, a, f, body), gaps);
    FlowFileAccepted(w, a, f, body);
  }
}
