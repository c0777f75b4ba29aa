/** From source text to syntax trees. */
module FrontEnd {
  // Lexer and parser together, under any layout.

  import opened Tokens
  import opened Diagnostics
  import opened TokenBuffer
  import opened ExprParser
  import opened Lexing
  import opened Layout
  import ExprPrinter
  import TypeParser
  import TypePrinter
  import PipelineParser
  import PipelineResults
  import opened Spelling

  function Lexed(c: Config, src: string): Stream {
    Lexemes(TokensFrom(c, src, 0))
  }

  lemma WrittenIsLexed(c: Config, xs: seq<Lexeme>, gaps: seq<seq<Piece>>)
    requires AllWritable(c, xs) && GapsOk(xs, gaps)
    ensures Lexed(c, Write(xs, gaps)) == xs
  {
    var src := Write(xs, gaps);
    assert src[0..] == src;
    LayoutIsIgnored(c, xs, gaps, src, 0);
  }

  /** The lexer spells its tokens well, provided its keyword tables know the truth values by their names. */
  ghost predicate KnowsTruth(c: Config) {
    forall w :: (w in c.keywords ==> Spelt(Lexeme(c.keywords[w], w))) && (w in c.aliases ==> Spelt(Lexeme(c.aliases[w], w)))
  }

  lemma {:induction false} LexedIsSpelled(c: Config, src: string, pos: nat)
    requires pos <= |src| && KnowsTruth(c)
    ensures WellSpelled(Lexemes(TokensFrom(c, src, pos)))
    decreases |src| - pos
  {
    var start := SkipTrivia(src, pos).0;
    if start < |src| {
      var scan := ScanToken(c, src, start);
      LexedIsSpelled(c, src, scan.end);
      ScannedIsSpelt(c, src, start);
      LexemesCons(Token(scan.kind, scan.text, LocAt(src, start)), TokensFrom(c, src, scan.end));
    }
  }

  lemma ScannedIsSpelt(c: Config, src: string, pos: nat)
    requires pos < |src| && KnowsTruth(c)
    ensures var scan := ScanToken(c, src, pos); Spelt(Lexeme(scan.kind, scan.text))
  {
    if IsWordStart(src[pos]) {
      var word := src[pos..WordEnd(src, pos + 1)];
      assert IsKeyword(WordKind(c, word)) ==> Spelt(Lexeme(WordKind(c, word), word));
    } else if !IsDigit(src[pos]) && src[pos] != '"' {
      OperatorIsSpelt(c.lenient, src, pos);
    }
  }

  lemma OperatorIsSpelt(lenient: bool, src: string, pos: nat)
    requires pos < |src|
    ensures var scan := ScanOperator(lenient, src, pos); Spelt(Lexeme(scan.kind, scan.text))
  {
    assert src[pos..pos + 1] == [src[pos]];
    if pos + 1 < |src| { assert src[pos..pos + 2] == [src[pos], src[pos + 1]]; }
    if pos + 2 < |src| { assert src[pos..pos + 3] == [src[pos], src[pos + 1], src[pos + 2]]; }
  }

  /** A source text is an expression, and has that value, exactly if its tokens are a written form of it
      within the guard. */
  lemma TextIsExpression(c: Config, src: string, e: Expr)
    requires KnowsTruth(c)
    ensures ParseBinary(Lexed(c, src), 1, 0) == Parsed(e, [], 0) <==>
            exists f :: ExprPrinter.Ok(f, 1) && ExprPrinter.Tree(f) == e && Lexed(c, src) == ExprPrinter.Put(f) &&
                        1 + ExprPrinter.Depth(f) <= MAX_RECURSION_DEPTH
  {
    LexedIsSpelled(c, src, 0);
    ExprPrinter.AcceptsExactlyWritten(Lexed(c, src), e, [], 0);
    forall f: ExprPrinter.Form ensures ExprPrinter.Put(f) + [] == ExprPrinter.Put(f) && !ExprPrinter.Extends(f, []) {
      ExprPrinter.NothingExtends(f, []);
    }
  }

  /** An expression, written with minimal parentheses and any white space and comments between its tokens,
      or none where they do not run together, is read back from the text exactly when its nesting fits the
      guard. */
  lemma ExpressionTextParses(c: Config, e: Expr, gaps: seq<seq<Piece>>)
    requires ExprPrinter.Printable(e) && AllWritable(c, ExprPrinter.Print(e, 1))
    requires GapsOk(ExprPrinter.Print(e, 1), gaps)
    ensures ParseBinary(Lexed(c, Write(ExprPrinter.Print(e, 1), gaps)), 1, 0) == Parsed(e, [], 0) <==>
            1 + ExprPrinter.Nesting(e, 1) <= MAX_RECURSION_DEPTH
  {
    WrittenIsLexed(c, ExprPrinter.Print(e, 1), gaps);
    ExprPrinter.NothingExtends(ExprPrinter.Minimal(e, 1), []);
    ExprPrinter.PrintedExpressionsParse(e, [], 0);
    assert ExprPrinter.Print(e, 1) + [] == ExprPrinter.Print(e, 1);
  }

  /** A pipeline, written out in any layout, is read back edge by edge. */
  lemma PipelineTextParses(c: Config, es: seq<PipelineParser.Edge>, gaps: seq<seq<Piece>>)
    requires PipelineResults.EdgesOk(es) && AllWritable(c, PipelineResults.PrintEdges(es))
    requires GapsOk(PipelineResults.PrintEdges(es), gaps)
    ensures PipelineParser.ParseEdges(Parsed([], Lexed(c, Write(PipelineResults.PrintEdges(es), gaps)), 0), 0) ==
            Parsed(es, [], 0)
  {
    var s := PipelineResults.PrintEdges(es);
    WrittenIsLexed(c, s, gaps);
    PipelineResults.EdgesRead([], es, [], 0, 0);
    assert s + [] == s && [] + es == es;
  }

  /** A type written in any layout, its closing angles apart or joined, is read back exactly when its
      nesting fits the guard and no `<` was joined with a `>>` behind it. */
  lemma TypeTextParses(c: Config, t: TypeParser.TypeNode, xs: seq<Lexeme>, gaps: seq<seq<Piece>>)
    requires TypePrinter.Printable(w => WordKind(c, w), t) && AllWritable(c, xs)
    requires TypePrinter.Unfuse(xs) == TypePrinter.Print(w => WordKind(c, w), t)
    requires GapsOk(xs, gaps)
    ensures TypeParser.ParseType(Lexed(c, Write(xs, gaps)), 0) == Parsed(t, [], 0) <==>
            TypePrinter.Clean(xs, 0) && 1 + TypePrinter.Nesting(t) <= MAX_RECURSION_DEPTH
  {
    WrittenIsLexed(c, xs, gaps);
    var kw := w => WordKind(c, w);
    var p := TypePrinter.Print(kw, t);
    assert p + [] == p;
    TypePrinter.PrintedTypesParse(kw, t, xs, [], 0);
    var r := TypeParser.ParseType(xs, 0);
    if r.errors == 0 { TypePrinter.Heads(r.rest); }
  }
}
