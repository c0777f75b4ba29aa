/** Lexemes, longest first. */
module LexerResults {
  // The lexer is a longest-match scanner for a declared set of lexemes, and hands its tokens out at
  // strictly later places.

  import opened Tokens
  import opened Lexing
  import opened PipelineParser

  // ---------- The lexemes, as sets of strings ----------

  predicate AllWordChars(w: string) { w == "" || (IsWordChar(w[0]) && AllWordChars(w[1..])) }

  predicate IsWord(w: string) { w != "" && IsWordStart(w[0]) && AllWordChars(w[1..]) }

  predicate IsNumber(w: string) { w != "" && IsDigit(w[0]) && (|w| == 1 || IsNumber(w[1..])) }

  /** No quote and no line end. */
  predicate IsPlain(w: string) { w == "" || (w[0] != '"' && w[0] != '\n' && IsPlain(w[1..])) }

  predicate IsQuoted(w: string) { |w| >= 2 && w[0] == '"' && w[|w| - 1] == '"' && IsPlain(w[1..|w| - 1]) }

  function OperatorKind(lenient: bool, w: string): Kind {
    if |w| == 1 then SingleKind(w[0], lenient)
    else if |w| == 2 then PairKind(w[0], w[1])
    else if w == "..." then Ellipsis
    else Error
  }

  predicate IsLexeme(lenient: bool, w: string) {
    IsWord(w) || IsNumber(w) || IsQuoted(w) || OperatorKind(lenient, w) != Error
  }

  // ---------- Longest match ----------

  lemma {:induction false} WordEnds(src: string, pos: nat, e: nat)
    requires pos <= e <= |src|
    ensures var end := WordEnd(src, pos); AllWordChars(src[pos..e]) <==> e <= end
    decreases |src| - pos
  {
    if pos < e {
      assert src[pos..e][0] == src[pos] && src[pos..e][1..] == src[pos + 1..e];
      if IsWordChar(src[pos]) {
        WordEnds(src, pos + 1, e);
      }
    }
  }

  lemma {:induction false} DigitsEnds(src: string, pos: nat, e: nat)
    requires pos < e <= |src|
    ensures var end := DigitsEnd(src, pos); IsNumber(src[pos..e]) <==> e <= end
    decreases |src| - pos
  {
    assert src[pos..e][0] == src[pos] && src[pos..e][1..] == src[pos + 1..e];
    if IsDigit(src[pos]) {
      if pos + 1 < e {
        DigitsEnds(src, pos + 1, e);
      }
    }
  }

  lemma {:induction false} TextEnds(src: string, pos: nat, e: nat)
    requires pos <= e <= |src|
    ensures var end := TextEnd(src, pos); IsPlain(src[pos..e]) <==> e <= end
    decreases |src| - pos
  {
    if pos < e {
      assert src[pos..e][0] == src[pos] && src[pos..e][1..] == src[pos + 1..e];
      if src[pos] != '"' && src[pos] != '\n' {
        TextEnds(src, pos + 1, e);
      }
    }
  }

  lemma {:induction false} QuotedEnds(src: string, pos: nat, e: nat)
    requires pos < e <= |src| && src[pos] == '"'
    ensures var r := ScanText(src, pos);
            IsQuoted(src[pos..e]) <==> r.kind == StringLiteral && e == r.end
  {
    var end := TextEnd(src, pos + 1);
    if e >= pos + 2 {
      QuotedSlice(src, pos, e);
      TextEnds(src, pos + 1, e - 1);
      if e - 1 < end {
        TextEnds(src, pos + 1, e);
        LastOf(src, pos + 1, e);
        PlainHasNoQuote(src[pos + 1..e], e - 1 - (pos + 1));
      }
    }
    TextEndIsStop(src, pos + 1);
  }

  lemma LastOf(src: string, pos: nat, e: nat)
    requires pos < e <= |src|
    ensures src[pos..e][e - 1 - pos] == src[e - 1]
  {
  }

  /** A piece of the source, its first and last characters, and what is between them. */
  lemma QuotedSlice(src: string, pos: nat, e: nat)
    requires pos + 2 <= e <= |src|
    ensures var w := src[pos..e];
            w[0] == src[pos] && w[|w| - 1] == src[e - 1] && w[1..|w| - 1] == src[pos + 1..e - 1]
  {
    var a, b := src[pos + 1..e - 1], src[pos..e][1..e - pos - 1];
    assert |a| == |b| && forall i :: 0 <= i < |a| ==> a[i] == b[i];
  }

  lemma {:induction false} PlainHasNoQuote(w: string, k: nat)
    requires k < |w| && IsPlain(w)
    ensures w[k] != '"'
  {
    if k > 0 {
      PlainHasNoQuote(w[1..], k - 1);
    }
  }

  lemma {:induction false} TextEndIsStop(src: string, pos: nat)
    requires pos <= |src|
    ensures var end := TextEnd(src, pos); end < |src| ==> src[end] == '"' || src[end] == '\n'
    decreases |src| - pos
  {
    if pos < |src| && src[pos] != '"' && src[pos] != '\n' {
      TextEndIsStop(src, pos + 1);
    }
  }

  lemma OperatorEnds(lenient: bool, src: string, pos: nat, e: nat)
    requires pos < e <= |src|
    ensures var r := ScanOperator(lenient, src, pos);
            && (r.kind != Error ==> OperatorKind(lenient, src[pos..r.end]) == r.kind)
            && (e > r.end || r.kind == Error ==> OperatorKind(lenient, src[pos..e]) == Error)
  {
    var w := src[pos..e];
    assert w[0] == src[pos] && (e > pos + 1 ==> w[1] == src[pos + 1]) && (e > pos + 2 ==> w[2] == src[pos + 2]);
    var r := ScanOperator(lenient, src, pos);
    if r.end == pos + 3 {
      assert r.text == ['.', '.', '.'];
    }
  }

  /** At every place the token is the longest lexeme that starts there, and the token is an error
      exactly where no lexeme starts. */
  lemma {:induction false} LongestMatch(c: Config, src: string, pos: nat, e: nat)
    requires pos < e <= |src|
    ensures var r := ScanToken(c, src, pos);
            && (r.kind != Error ==> IsLexeme(c.lenient, src[pos..r.end]))
            && (r.kind == Error || e > r.end ==> !IsLexeme(c.lenient, src[pos..e]))
  {
    var r := ScanToken(c, src, pos);
    FirstCharDecides(c, src, pos, e);
    FirstCharDecides(c, src, pos, r.end);
    if IsWordStart(src[pos]) {
      WordEnds(src, pos + 1, e);
      WordEnds(src, pos + 1, r.end);
    } else if IsDigit(src[pos]) {
      DigitsEnds(src, pos, e);
      DigitsEnds(src, pos, r.end);
    } else if src[pos] == '"' {
      QuotedEnds(src, pos, e);
      QuotedEnds(src, pos, r.end);
    } else {
      OperatorEnds(c.lenient, src, pos, e);
    }
  }

  lemma FirstCharDecides(c: Config, src: string, pos: nat, e: nat)
    requires pos < e <= |src|
    ensures var w := src[pos..e]; var a := src[pos];
            && (IsWordStart(a) ==> (IsLexeme(c.lenient, w) <==> AllWordChars(src[pos + 1..e])))
            && (!IsWordStart(a) && IsDigit(a) ==> (IsLexeme(c.lenient, w) <==> IsNumber(w)))
            && (a == '"' ==> (IsLexeme(c.lenient, w) <==> IsQuoted(w)))
            && (!IsWordStart(a) && !IsDigit(a) && a != '"' ==> (IsLexeme(c.lenient, w) <==> OperatorKind(c.lenient, w) != Error))
  {
    var w := src[pos..e];
    assert w[0] == src[pos] && w[1..] == src[pos + 1..e];
  }

  // ---------- Places and ends ----------

  /** What the parser relies on: no end of file among the tokens, and every token at a later place. */
  lemma {:induction false} TokensAreOrdered(c: Config, src: string, pos: nat)
    requires pos <= |src|
    ensures Ordered(TokensFrom(c, src, pos), LocAt(src, |src|))
    ensures NoEof(TokensFrom(c, src, pos))
    ensures TokensFrom(c, src, pos) != [] ==> TokensFrom(c, src, pos)[0].loc == LocAt(src, SkipTrivia(src, pos).0)
    decreases |src| - pos
  {
    var start := SkipTrivia(src, pos).0;
    if start < |src| {
      var scan := ScanToken(c, src, start);
      var ts, more := TokensFrom(c, src, pos), TokensFrom(c, src, scan.end);
      TokensAreOrdered(c, src, scan.end);
      assert ts[1..] == more;
      LaterIsBehind(src, start, |src|);
      if more != [] {
        LaterIsBehind(src, start, SkipTrivia(src, scan.end).0);
      }
    }
  }
}
