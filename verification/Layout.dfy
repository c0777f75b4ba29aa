/** Layout, and that it does not matter. */
module Layout {
  // The text between tokens is white space and comments, nothing is lost, and no choice of layout changes
  // what is lexed.

  import opened Tokens
  import opened Lexing
  import opened LexerResults

  // ---------- Gaps ----------

  /** `Open` is a block comment the source ends in. */
  datatype Piece = Blank(c: char) | Line(body: string) | Block(body: string) | Open(body: string)

  function Text(p: Piece): string {
    match p
    case Blank(c) => [c]
    case Line(body) => "//" + body
    case Block(body) => "/*" + (body + "*/")
    case Open(body) => "/*" + body
  }

  function Texts(ps: seq<Piece>): string {
    if ps == [] then "" else Text(ps[0]) + Texts(ps[1..])
  }

  predicate OneLine(s: string) { s == "" || (s[0] != '\n' && OneLine(s[1..])) }

  predicate Unclosed(s: string) {
    |s| < 2 || (!(s[0] == '*' && s[1] == '/') && Unclosed(s[1..]))
  }

  predicate PieceOk(p: Piece) {
    match p
    case Blank(c) => IsSpace(c)
    case Line(body) => OneLine(body)
    case Block(body) => Unclosed(body)
    case Open(body) => Unclosed(body)
  }

  /** A gap between tokens, or behind the last one. A line comment runs to the end of its line. */
  predicate GapOk(ps: seq<Piece>, last: bool) {
    ps == [] ||
    (PieceOk(ps[0]) && GapOk(ps[1..], last) &&
     (ps[0].Line? ==> if |ps| == 1 then last else ps[1] == Blank('\n')) &&
     (ps[0].Open? ==> |ps| == 1 && last))
  }

  predicate StartsGap(s: string) {
    s != "" && (IsSpace(s[0]) || (|s| > 1 && s[0] == '/' && (s[1] == '/' || s[1] == '*')))
  }

  // ---------- A gap is skipped whole ----------

  lemma {:induction false} LineSkipped(src: string, pos: nat, body: string, rest: string)
    requires pos <= |src| && src[pos..] == body + rest && OneLine(body) && (rest == "" || rest[0] == '\n')
    ensures LineEnd(src, pos) == pos + |body| && src[pos + |body|..] == rest
    decreases |body|
  {
    if body == "" {
      assert body + rest == rest;
      if rest != "" { assert src[pos..][0] == src[pos]; }
    } else {
      Shifts(src, pos, body, rest);
      LineSkipped(src, pos + 1, body[1..], rest);
    }
  }

  lemma Shifts(src: string, pos: nat, body: string, rest: string)
    requires pos <= |src| && src[pos..] == body + rest && body != ""
    ensures pos < |src| && src[pos] == body[0] && src[pos + 1..] == body[1..] + rest
  {
    assert src[pos] == (body + rest)[0];
    assert src[pos + 1..] == src[pos..][1..];
  }

  lemma {:induction false} BlockSkipped(src: string, pos: nat, body: string, rest: string)
    requires pos <= |src| && src[pos..] == body + ("*/" + rest) && Unclosed(body)
    ensures BlockEnd(src, pos) == (pos + |body| + 2, true) && src[pos + |body| + 2..] == rest
    decreases |body|
  {
    if body == "" {
      assert src[pos..] == "*/" + rest;
      assert src[pos] == src[pos..][0] && src[pos + 1] == src[pos..][1];
    } else {
      Shifts(src, pos, body, "*/" + rest);
      BlockSkipped(src, pos + 1, body[1..], rest);
      assert src[pos + 1] == src[pos..][1];
    }
  }

  lemma {:induction false} OpenSkipped(src: string, pos: nat, body: string)
    requires pos <= |src| && src[pos..] == body && Unclosed(body)
    ensures BlockEnd(src, pos) == (|src|, false)
    decreases |body|
  {
    if body != "" {
      Shifts(src, pos, body, "");
      assert body[1..] + "" == body[1..];
      OpenSkipped(src, pos + 1, body[1..]);
      assert |body| > 1 ==> src[pos + 1] == src[pos..][1];
    }
  }

  lemma OpensComment(src: string, pos: nat, mark: char, rest: string)
    requires pos <= |src| && src[pos..] == ['/', mark] + rest
    ensures pos + 2 <= |src| && src[pos] == '/' && src[pos + 1] == mark && src[pos + 2..] == rest
  {
    assert src[pos] == src[pos..][0] && src[pos + 1] == src[pos..][1];
    assert src[pos + 2..] == src[pos..][2..];
  }

  lemma LineText(body: string, rest: string)
    ensures Text(Line(body)) + rest == ['/', '/'] + (body + rest)
  {
    var open := ['/', '/'];
    assert Text(Line(body)) == open + body;
  }

  lemma BlockText(body: string, rest: string)
    ensures Text(Block(body)) + rest == ['/', '*'] + (body + ("*/" + rest))
  {
    var open, close := ['/', '*'], "*/";
    assert Text(Block(body)) == open + (body + close);
    assert (open + (body + close)) + rest == open + (body + (close + rest));
  }

  lemma SkipsComment(src: string, pos: nat)
    requires pos + 2 <= |src| && src[pos] == '/'
    ensures src[pos + 1] == '/' ==> SkipTrivia(src, pos).0 == SkipTrivia(src, LineEnd(src, pos + 2)).0
    ensures src[pos + 1] == '*' && BlockEnd(src, pos + 2).1 ==>
            SkipTrivia(src, pos).0 == SkipTrivia(src, BlockEnd(src, pos + 2).0).0
  {
  }

  lemma CommentSkipped(src: string, pos: nat, body: string, rest: string)
    requires pos <= |src| && src[pos..] == ['/', '/'] + (body + rest)
    requires OneLine(body) && (rest == "" || rest[0] == '\n')
    ensures Skips(src, pos, rest)
  {
    OpensComment(src, pos, '/', body + rest);
    LineSkipped(src, pos + 2, body, rest);
    SkipsComment(src, pos);
  }

  lemma ClosedSkipped(src: string, pos: nat, body: string, rest: string)
    requires pos <= |src| && src[pos..] == ['/', '*'] + (body + ("*/" + rest)) && Unclosed(body)
    ensures Skips(src, pos, rest)
  {
    OpensComment(src, pos, '*', body + ("*/" + rest));
    BlockSkipped(src, pos + 2, body, rest);
    SkipsComment(src, pos);
  }

  lemma OpenEndSkipped(src: string, pos: nat, body: string)
    requires pos <= |src| && src[pos..] == ['/', '*'] + body && Unclosed(body)
    ensures Skips(src, pos, "")
  {
    OpensComment(src, pos, '*', body);
    OpenSkipped(src, pos + 2, body);
  }

  /** From `pos` the lexer gets to the same place as from the start of `rest`, the end of `src`. */
  predicate Skips(src: string, pos: nat, rest: string) {
    pos <= |src| && |rest| <= |src| && src[|src| - |rest|..] == rest &&
    SkipTrivia(src, pos).0 == SkipTrivia(src, |src| - |rest|).0
  }

  lemma {:induction false} PieceSkipped(src: string, pos: nat, p: Piece, rest: string)
    requires pos <= |src| && src[pos..] == Text(p) + rest && PieceOk(p)
    requires (p.Line? ==> rest == "" || rest[0] == '\n') && (p.Open? ==> rest == "")
    ensures Skips(src, pos, rest)
  {
    if p.Blank? {
      BlankSkipped(src, pos, p.c, rest);
    } else if p.Line? {
      LineText(p.body, rest);
      CommentSkipped(src, pos, p.body, rest);
    } else if p.Block? {
      BlockText(p.body, rest);
      ClosedSkipped(src, pos, p.body, rest);
    } else {
      assert Text(p) + rest == ['/', '*'] + p.body;
      OpenEndSkipped(src, pos, p.body);
    }
  }

  lemma BlankSkipped(src: string, pos: nat, c: char, rest: string)
    requires pos <= |src| && src[pos..] == [c] + rest && IsSpace(c)
    ensures Skips(src, pos, rest)
  {
    Shifts(src, pos, [c], rest);
    assert [c][1..] + rest == rest;
  }

  /** A gap is skipped to its end, and no further when no gap starts there. */
  lemma {:induction false} GapSkipped(src: string, pos: nat, ps: seq<Piece>, rest: string)
    requires pos <= |src| && src[pos..] == Texts(ps) + rest
    requires GapOk(ps, rest == "") && !StartsGap(rest)
    ensures SkipTrivia(src, pos).0 == |src| - |rest|
    decreases |ps|
  {
    if ps == [] {
      assert Texts(ps) + rest == rest;
      NothingSkipped(src, pos, rest);
    } else {
      var more := Texts(ps[1..]) + rest;
      FirstPiece(ps, rest);
      PieceSkipped(src, pos, ps[0], more);
      GapSkipped(src, |src| - |more|, ps[1..], rest);
    }
  }

  lemma NothingSkipped(src: string, pos: nat, rest: string)
    requires pos <= |src| && src[pos..] == rest && !StartsGap(rest)
    ensures SkipTrivia(src, pos).0 == pos
  {
    assert |rest| > 0 ==> src[pos] == src[pos..][0];
    assert |rest| > 1 ==> src[pos + 1] == src[pos..][1];
  }

  lemma FirstPiece(ps: seq<Piece>, rest: string)
    requires ps != [] && GapOk(ps, rest == "")
    ensures var more := Texts(ps[1..]) + rest;
            && PieceOk(ps[0]) && GapOk(ps[1..], rest == "")
            && Texts(ps) + rest == Text(ps[0]) + more
            && (ps[0].Line? ==> more == "" || more[0] == '\n') && (ps[0].Open? ==> more == "")
  {
    if |ps| == 1 {
      assert Texts(ps[1..]) == "";
    } else if ps[0].Line? {
      assert Text(ps[1]) == ['\n'] && Texts(ps[1..])[0] == '\n';
    }
  }

  // ---------- Tokens are read back ----------

  /** A lexeme the lexer can produce. */
  predicate Writable(c: Config, x: Lexeme) {
    if x.kind == StringLiteral then IsPlain(x.text)
    else if IsWord(x.text) then x.kind == WordKind(c, x.text)
    else if IsNumber(x.text) then x.kind == IntegerLiteral
    else x.kind != Error && x.kind == OperatorKind(c.lenient, x.text)
  }

  function Show(x: Lexeme): string {
    if x.kind == StringLiteral then ['"'] + x.text + ['"'] else x.text
  }

  lemma OperatorFirst(lenient: bool, w: string)
    requires OperatorKind(lenient, w) != Error
    ensures w != "" && !IsWordStart(w[0]) && !IsDigit(w[0]) && w[0] != '"' && !IsSpace(w[0])
    ensures OperatorKind(lenient, w) != StringLiteral
  {
    if |w| > 2 { assert w[0] == "..."[0]; }
  }

  lemma ShownStarts(c: Config, x: Lexeme)
    requires Writable(c, x)
    ensures Show(x) != "" && !IsSpace(Show(x)[0])
  {
    if x.kind != StringLiteral && !IsWord(x.text) && !IsNumber(x.text) {
      OperatorFirst(c.lenient, x.text);
    }
  }

  lemma QuotedScans(src: string, pos: nat, text: string)
    requires IsPlain(text) && pos + |text| + 2 <= |src| && src[pos..pos + |text| + 2] == ['"'] + text + ['"']
    ensures src[pos] == '"' && ScanText(src, pos) == Scan(StringLiteral, text, pos + |text| + 2)
  {
    var e := pos + |text| + 2;
    QuotedShape(src[pos..e], text);
    QuotedSlice(src, pos, e);
    QuotedEnds(src, pos, e);
    assert ScanText(src, pos).text == src[pos + 1..e - 1];
  }

  lemma QuotedShape(w: string, text: string)
    requires w == ['"'] + text + ['"'] && IsPlain(text)
    ensures |w| >= 2 && w[0] == '"' && w[1..|w| - 1] == text && IsQuoted(w)
  {
    assert w[1..|w| - 1] == text;
  }

  lemma LastDigitOf(src: string, pos: nat, e: nat)
    requires pos < e <= |src| && IsNumber(src[pos..e])
    ensures IsDigit(src[e - 1])
  {
    LastDigit(src[pos..e]);
    LastOf(src, pos, e);
  }

  lemma LastWordCharOf(src: string, pos: nat, e: nat)
    requires pos < e <= |src| && AllWordChars(src[pos..e])
    ensures IsWordChar(src[e - 1])
  {
    LastWordChar(src[pos..e]);
    LastOf(src, pos, e);
  }

  lemma WordScans(c: Config, src: string, pos: nat, w: string)
    requires IsWord(w) && pos + |w| <= |src| && src[pos..pos + |w|] == w
    requires pos + |w| < |src| ==> !IsWordChar(src[pos + |w|])
    ensures ScanToken(c, src, pos) == Scan(WordKind(c, w), w, pos + |w|)
  {
    var e := pos + |w|;
    assert src[pos + 1..e] == w[1..] && src[pos] == w[0];
    WordEnds(src, pos + 1, e);
    if e + 1 <= WordEnd(src, pos + 1) {
      WordEnds(src, pos + 1, e + 1);
      LastWordCharOf(src, pos + 1, e + 1);
    }
  }

  lemma StartsNumber(src: string, pos: nat, w: string)
    requires IsNumber(w) && pos + |w| <= |src| && src[pos..pos + |w|] == w
    ensures w != "" && pos < |src| && IsDigit(src[pos]) && DigitsEnd(src, pos) == DigitsEnd(src, pos + 1)
  {
    assert src[pos] == src[pos..pos + |w|][0];
  }

  lemma NumberScans(c: Config, src: string, pos: nat, w: string)
    requires IsNumber(w) && pos + |w| <= |src| && src[pos..pos + |w|] == w
    requires pos + |w| < |src| ==> !IsDigit(src[pos + |w|])
    ensures ScanToken(c, src, pos) == Scan(IntegerLiteral, w, pos + |w|)
  {
    hide IsNumber, DigitsEnd;
    var e := pos + |w|;
    StartsNumber(src, pos, w);
    DigitsEnds(src, pos, e);
    if e + 1 <= DigitsEnd(src, pos) {
      DigitsEnds(src, pos, e + 1);
      LastDigitOf(src, pos, e + 1);
    }
  }

  /** Whether the character behind a lexeme would be drawn into it, or make it the start of a comment. */
  predicate Glues(x: Lexeme, ch: char) {
    if x.kind == StringLiteral then false
    else if IsWord(x.text) then IsWordChar(ch)
    else if IsNumber(x.text) then IsDigit(ch)
    else if |x.text| == 1 then PairKind(x.text[0], ch) != Error || (x.text == "/" && (ch == '/' || ch == '*'))
    else x.text == ".." && ch == '.'
  }

  predicate StandsFree(x: Lexeme, more: string) { more == "" || !Glues(x, more[0]) }

  /** A lexeme that what follows does not glue to is scanned whole. */
  lemma ShownScans(c: Config, x: Lexeme, src: string, pos: nat)
    requires Writable(c, x) && pos + |Show(x)| <= |src|
    requires src[pos..pos + |Show(x)|] == Show(x) && StandsFree(x, src[pos + |Show(x)|..])
    ensures ScanToken(c, src, pos) == Scan(x.kind, x.text, pos + |Show(x)|)
  {
    if x.kind == StringLiteral {
      QuotedScans(src, pos, x.text);
    } else if IsWord(x.text) {
      WordScans(c, src, pos, x.text);
    } else if IsNumber(x.text) {
      NumberScans(c, src, pos, x.text);
    } else {
      OperatorFirst(c.lenient, x.text);
      OperatorScans(c.lenient, src, pos, x.text);
      assert src[pos] == src[pos..pos + |x.text|][0];
    }
  }

  lemma {:induction false} LastWordChar(w: string)
    requires w != "" && AllWordChars(w)
    ensures IsWordChar(w[|w| - 1])
  {
    if |w| > 1 { LastWordChar(w[1..]); }
  }

  lemma {:induction false} LastDigit(w: string)
    requires IsNumber(w)
    ensures IsDigit(w[|w| - 1])
  {
    if |w| > 1 { LastDigit(w[1..]); }
  }

  lemma OperatorScans(lenient: bool, src: string, pos: nat, w: string)
    requires OperatorKind(lenient, w) != Error && pos + |w| <= |src| && src[pos..pos + |w|] == w
    requires pos + |w| < |src| ==> (|w| == 1 ==> PairKind(w[0], src[pos + 1]) == Error) && !(w == ".." && src[pos + 2] == '.')
    ensures pos < |src| && ScanOperator(lenient, src, pos) == Scan(OperatorKind(lenient, w), w, pos + |w|)
  {
    assert src[pos] == w[0] && (|w| > 1 ==> src[pos + 1] == w[1]) && (|w| > 2 ==> src[pos + 2] == w[2]);
    if |w| > 2 { assert w == "..." && w[0] == '.' && w[1] == '.' && w[2] == '.'; }
    if |w| == 2 && w[0] == '.' { assert w == ".." && DotDot == PairKind(w[0], w[1]); }
  }

  /** The condition is exact: where it fails, the lexer takes more than the lexeme, or skips it. */
  lemma GluedIsNotRead(c: Config, x: Lexeme, src: string, pos: nat)
    requires Writable(c, x) && pos + |Show(x)| < |src| && src[pos..pos + |Show(x)|] == Show(x)
    ensures pos < |src|
    ensures ScanToken(c, src, pos).end == pos + |Show(x)| && !StartsGap(src[pos..]) <==> !Glues(x, src[pos + |Show(x)|])
  {
    hide ScanToken, StartsGap, Glues, Show;
    ShownStarts(c, x);
    if Glues(x, src[pos + |Show(x)|]) {
      GluedGoesOn(c, x, src, pos);
    } else {
      var w, more := Show(x), src[pos + |Show(x)|..];
      ShownScans(c, x, src, pos);
      ShownIsNoGap(c, x, more);
      assert src[pos..] == w + more;
    }
  }

  lemma GluedGoesOn(c: Config, x: Lexeme, src: string, pos: nat)
    requires Writable(c, x) && pos + |Show(x)| < |src| && src[pos..pos + |Show(x)|] == Show(x)
    requires Show(x) != "" && Glues(x, src[pos + |Show(x)|])
    ensures ScanToken(c, src, pos).end > pos + |Show(x)| || StartsGap(src[pos..])
  {
    var w, e := x.text, pos + |x.text|;
    assert src[pos] == src[pos..e][0] && (|w| > 1 ==> src[pos + 1] == src[pos..e][1]);
    if IsWord(w) {
      assert src[pos + 1..e] == w[1..];
      WordEnds(src, pos + 1, e);
      OneMoreWordChar(w[1..], src[e]);
      assert src[pos + 1..e + 1] == w[1..] + [src[e]];
      WordEnds(src, pos + 1, e + 1);
    } else if IsNumber(w) {
      OneMoreDigit(w, src[e]);
      assert src[pos..e + 1] == w + [src[e]];
      DigitsEnds(src, pos, e + 1);
    } else if |w| == 1 {
      OperatorFirst(c.lenient, w);
      assert src[pos..][0] == src[pos] && src[pos..][1] == src[pos + 1];
    } else {
      assert w[0] == '.' && w[1] == '.' && PairKind('.', '.') == DotDot;
    }
  }

  lemma {:induction false} OneMoreWordChar(w: string, ch: char)
    requires AllWordChars(w) && IsWordChar(ch)
    ensures AllWordChars(w + [ch])
  {
    if w != "" {
      OneMoreWordChar(w[1..], ch);
      assert (w + [ch])[1..] == w[1..] + [ch];
    }
  }

  lemma {:induction false} OneMoreDigit(w: string, ch: char)
    requires IsNumber(w) && IsDigit(ch)
    ensures IsNumber(w + [ch])
  {
    assert (w + [ch])[1..] == w[1..] + [ch];
    if |w| > 1 { OneMoreDigit(w[1..], ch); }
  }

  // ---------- Any layout of the same lexemes lexes alike ----------

  /** Gaps around and between lexemes: any, also none, as long as no lexeme is glued to what follows it. */
  predicate GapsOk(xs: seq<Lexeme>, gaps: seq<seq<Piece>>) {
    && |gaps| == |xs| + 1 && GapOk(gaps[0], xs == [])
    && (xs != [] ==> StandsFree(xs[0], Write(xs[1..], gaps[1..])) && GapsOk(xs[1..], gaps[1..]))
  }

  predicate AllWritable(c: Config, xs: seq<Lexeme>) {
    xs == [] || (Writable(c, xs[0]) && AllWritable(c, xs[1..]))
  }

  function Write(xs: seq<Lexeme>, gaps: seq<seq<Piece>>): string
    requires |gaps| == |xs| + 1
  {
    Texts(gaps[0]) + if xs == [] then "" else Show(xs[0]) + Write(xs[1..], gaps[1..])
  }

  lemma ShownIsNoGap(c: Config, x: Lexeme, rest: string)
    requires Writable(c, x) && StandsFree(x, rest)
    ensures !StartsGap(Show(x) + rest)
  {
    ShownStarts(c, x);
    var w := Show(x);
    assert (w + rest)[0] == w[0] && (|w + rest| > 1 ==> (w + rest)[1] == if |w| > 1 then w[1] else rest[0]);
    if x.kind != StringLiteral && !IsWord(w) && !IsNumber(w) {
      SlashStandsAlone(c.lenient, w);
      assert w[0] == '/' ==> w == "/";
    }
  }

  lemma SlashStandsAlone(lenient: bool, w: string)
    requires OperatorKind(lenient, w) != Error && w != ""
    ensures w[0] == '/' ==> |w| == 1
  {
    assert "..."[0] == '.';
  }

  lemma Located(src: string, start: nat, w: string, rest: string)
    requires start <= |src| && src[start..] == w + rest
    ensures start + |w| <= |src| && src[start..start + |w|] == w && src[start + |w|..] == rest
  {
    assert src[start..start + |w|] == src[start..][..|w|];
    assert src[start + |w|..] == src[start..][|w|..];
  }

  lemma TokensUnfold(c: Config, src: string, pos: nat)
    requires pos <= |src| && SkipTrivia(src, pos).0 < |src|
    ensures var scan := ScanToken(c, src, SkipTrivia(src, pos).0);
            Lexemes(TokensFrom(c, src, pos)) == [Lexeme(scan.kind, scan.text)] + Lexemes(TokensFrom(c, src, scan.end))
  {
    var start := SkipTrivia(src, pos).0;
    var scan := ScanToken(c, src, start);
    var t, more := Token(scan.kind, scan.text, LocAt(src, start)), TokensFrom(c, src, scan.end);
    assert TokensFrom(c, src, pos) == [t] + more;
    LexemesCons(t, more);
  }

  lemma {:induction false} LayoutIsIgnored(c: Config, xs: seq<Lexeme>, gaps: seq<seq<Piece>>, src: string, pos: nat)
    requires AllWritable(c, xs) && GapsOk(xs, gaps)
    requires pos <= |src| && src[pos..] == Write(xs, gaps)
    ensures Lexemes(TokensFrom(c, src, pos)) == xs
    decreases |xs|
  {
    if xs == [] {
      assert Texts(gaps[0]) + "" == Texts(gaps[0]);
      GapSkipped(src, pos, gaps[0], "");
    } else {
      var end := FirstLexeme(c, xs[0], gaps[0], src, pos, Write(xs[1..], gaps[1..]));
      LayoutIsIgnored(c, xs[1..], gaps[1..], src, end);
    }
  }

  lemma FirstLexeme(c: Config, x: Lexeme, gap: seq<Piece>, src: string, pos: nat, more: string) returns (end: nat)
    requires Writable(c, x) && GapOk(gap, false) && StandsFree(x, more)
    requires pos <= |src| && src[pos..] == Texts(gap) + (Show(x) + more)
    ensures end <= |src| && src[end..] == more
    ensures Lexemes(TokensFrom(c, src, pos)) == [x] + Lexemes(TokensFrom(c, src, end))
  {
    hide ScanToken, SkipTrivia, TokensFrom, Texts, Show, GapOk;
    ShownIsNoGap(c, x, more);
    ShownStarts(c, x);
    var start := GapLeads(src, pos, gap, Show(x) + more);
    ShownLeads(c, x, src, start, more);
    end := start + |Show(x)|;
    TokensUnfold(c, src, pos);
  }

  lemma GapLeads(src: string, pos: nat, gap: seq<Piece>, rest: string) returns (start: nat)
    requires GapOk(gap, rest == "") && !StartsGap(rest) && pos <= |src| && src[pos..] == Texts(gap) + rest
    ensures start <= |src| && start == SkipTrivia(src, pos).0 && src[start..] == rest && |src| == start + |rest|
  {
    GapSkipped(src, pos, gap, rest);
    Reached(src, pos, Texts(gap), rest);
    start := |src| - |rest|;
  }

  lemma ShownLeads(c: Config, x: Lexeme, src: string, start: nat, more: string)
    requires Writable(c, x) && StandsFree(x, more) && start <= |src| && src[start..] == Show(x) + more
    ensures var end := start + |Show(x)|;
            start < |src| && end <= |src| && src[end..] == more && ScanToken(c, src, start) == Scan(x.kind, x.text, end)
  {
    Located(src, start, Show(x), more);
    ShownStarts(c, x);
    ShownScans(c, x, src, start);
  }

  lemma Reached(src: string, pos: nat, gap: string, rest: string)
    requires pos <= |src| && src[pos..] == gap + rest
    ensures |rest| <= |src| && src[|src| - |rest|..] == rest
  {
    assert src[|src| - |rest|..] == src[pos..][|gap|..];
  }

  // ---------- Nothing of the source is lost ----------

  /** The gap the lexer skips from `pos`, taken to pieces. */
  function GapAt(src: string, pos: nat): seq<Piece>
    requires pos <= |src|
    decreases |src| - pos
  {
    if pos == |src| then []
    else if IsSpace(src[pos]) then [Blank(src[pos])] + GapAt(src, pos + 1)
    else if src[pos] == '/' && CharAt(src, pos + 1) == '/' then
      [Line(src[pos + 2..LineEnd(src, pos + 2)])] + GapAt(src, LineEnd(src, pos + 2))
    else if src[pos] == '/' && CharAt(src, pos + 1) == '*' then
      var block := BlockEnd(src, pos + 2);
      if block.1 then [Block(src[pos + 2..block.0 - 2])] + GapAt(src, block.0) else [Open(src[pos + 2..])]
    else []
  }

  lemma {:induction false} LineFound(src: string, pos: nat)
    requires pos <= |src|
    ensures var end := LineEnd(src, pos); OneLine(src[pos..end]) && (end < |src| ==> src[end] == '\n')
    decreases |src| - pos
  {
    if pos < |src| && src[pos] != '\n' {
      LineFound(src, pos + 1);
      assert src[pos..LineEnd(src, pos)][1..] == src[pos + 1..LineEnd(src, pos)];
    }
  }

  lemma {:induction false} BlockFound(src: string, pos: nat)
    requires pos <= |src|
    ensures var r := BlockEnd(src, pos);
            if r.1 then r.0 >= pos + 2 && Unclosed(src[pos..r.0 - 2]) && src[r.0 - 2..r.0] == "*/"
            else Unclosed(src[pos..])
    decreases |src| - pos
  {
    var r := BlockEnd(src, pos);
    if pos == |src| || (src[pos] == '*' && CharAt(src, pos + 1) == '/') {
    } else {
      BlockFound(src, pos + 1);
      var e := if r.1 then r.0 - 2 else |src|;
      assert src[pos..e][1..] == src[pos + 1..e] && (e >= pos + 2 ==> src[pos..e][1] == src[pos + 1]);
      assert src[pos..] == src[pos..|src|] && src[pos + 1..] == src[pos + 1..|src|];
    }
  }

  lemma SliceSplits(src: string, a: nat, b: nat, e: nat)
    requires a <= b <= e <= |src|
    ensures src[a..e] == src[a..b] + src[b..e]
  {
  }

  lemma {:induction false} GapFound(src: string, pos: nat)
    requires pos <= |src|
    ensures var end := SkipTrivia(src, pos).0;
            Texts(GapAt(src, pos)) == src[pos..end] && GapOk(GapAt(src, pos), end == |src|) && !StartsGap(src[end..])
    decreases |src| - pos
  {
    var end := SkipTrivia(src, pos).0;
    if pos == |src| {
    } else if IsSpace(src[pos]) {
      GapFound(src, pos + 1);
      PieceInFront(src, pos, pos + 1, end, Blank(src[pos]), GapAt(src, pos + 1));
    } else if src[pos] == '/' && CharAt(src, pos + 1) == '/' {
      LineGapFound(src, pos);
    } else if src[pos] == '/' && CharAt(src, pos + 1) == '*' {
      BlockGapFound(src, pos);
    } else {
      assert src[pos..][0] == src[pos];
      if pos + 1 < |src| { assert src[pos..][1] == src[pos + 1]; }
    }
  }

  lemma {:induction false} LineGapFound(src: string, pos: nat)
    requires pos + 2 <= |src| && src[pos] == '/' && src[pos + 1] == '/'
    ensures var end := SkipTrivia(src, pos).0;
            Texts(GapAt(src, pos)) == src[pos..end] && GapOk(GapAt(src, pos), end == |src|) && !StartsGap(src[end..])
    decreases |src| - pos, 1
  {
    var end, next := SkipTrivia(src, pos).0, LineEnd(src, pos + 2);
    LineFound(src, pos + 2);
    GapFound(src, next);
    var line := Line(src[pos + 2..next]);
    SliceSplits(src, pos, pos + 2, next);
    assert src[pos..pos + 2] == "//";
    PieceInFront(src, pos, next, end, line, GapAt(src, next));
    if next < |src| {
      assert GapAt(src, next)[0] == Blank('\n');
    }
  }

  lemma {:induction false} BlockGapFound(src: string, pos: nat)
    requires pos + 2 <= |src| && src[pos] == '/' && src[pos + 1] == '*'
    ensures var end := SkipTrivia(src, pos).0;
            Texts(GapAt(src, pos)) == src[pos..end] && GapOk(GapAt(src, pos), end == |src|) && !StartsGap(src[end..])
    decreases |src| - pos, 1
  {
    BlockFound(src, pos + 2);
    assert src[pos..pos + 2] == "/*";
    var block := BlockEnd(src, pos + 2);
    if block.1 {
      GapFound(src, block.0);
      ClosedGapFound(src, pos, block.0, SkipTrivia(src, pos).0);
    } else {
      OpenGapFound(src, pos);
    }
  }

  lemma OpenGapFound(src: string, pos: nat)
    requires pos + 2 <= |src| && src[pos..pos + 2] == "/*" && BlockEnd(src, pos + 2) == (|src|, false)
    requires Unclosed(src[pos + 2..]) && src[pos] == '/' && src[pos + 1] == '*'
    ensures SkipTrivia(src, pos).0 == |src| && !StartsGap(src[|src|..])
    ensures Texts(GapAt(src, pos)) == src[pos..|src|] && GapOk(GapAt(src, pos), true)
  {
    OpenSlice(src, pos);
    PieceInFront(src, pos, |src|, |src|, Open(src[pos + 2..]), []);
    assert GapAt(src, pos) == [Open(src[pos + 2..])] + [];
  }

  lemma ClosedGapFound(src: string, pos: nat, next: nat, end: nat)
    requires pos + 4 <= next <= end <= |src| && src[pos..pos + 2] == "/*" && src[next - 2..next] == "*/"
    requires src[pos] == '/' && src[pos + 1] == '*' && BlockEnd(src, pos + 2) == (next, true) && Unclosed(src[pos + 2..next - 2])
    requires Texts(GapAt(src, next)) == src[next..end] && GapOk(GapAt(src, next), end == |src|)
    ensures Texts(GapAt(src, pos)) == src[pos..end] && GapOk(GapAt(src, pos), end == |src|)
  {
    var p, ps := Block(src[pos + 2..next - 2]), GapAt(src, next);
    BlockSlice(src, pos, next);
    PieceInFront(src, pos, next, end, p, ps);
    assert GapAt(src, pos) == [p] + ps && ([p] + ps)[1..] == ps;
  }

  lemma BlockSlice(src: string, pos: nat, end: nat)
    requires pos + 4 <= end <= |src| && src[pos..pos + 2] == "/*" && src[end - 2..end] == "*/"
    ensures Text(Block(src[pos + 2..end - 2])) == src[pos..end]
  {
    SliceSplits(src, pos + 2, end - 2, end);
    SliceSplits(src, pos, pos + 2, end);
  }

  lemma OpenSlice(src: string, pos: nat)
    requires pos + 2 <= |src| && src[pos..pos + 2] == "/*"
    ensures Text(Open(src[pos + 2..])) == src[pos..|src|]
  {
    SliceSplits(src, pos, pos + 2, |src|);
    assert src[pos + 2..] == src[pos + 2..|src|];
  }

  lemma PieceInFront(src: string, pos: nat, next: nat, end: nat, p: Piece, ps: seq<Piece>)
    requires pos <= next <= end <= |src| && Text(p) == src[pos..next] && Texts(ps) == src[next..end]
    ensures Texts([p] + ps) == src[pos..end]
  {
    assert ([p] + ps)[1..] == ps;
    SliceSplits(src, pos, next, end);
  }

  /** A gap and the characters of the token behind it, none behind the last gap. */
  datatype Chunk = Chunk(gap: seq<Piece>, raw: string)

  function Chunks(c: Config, src: string, pos: nat): seq<Chunk>
    requires pos <= |src|
    decreases |src| - pos
  {
    var start := SkipTrivia(src, pos).0;
    if start == |src| then [Chunk(GapAt(src, pos), "")]
    else
      var end := ScanToken(c, src, start).end;
      [Chunk(GapAt(src, pos), src[start..end])] + Chunks(c, src, end)
  }

  function Joined(cs: seq<Chunk>): string {
    if cs == [] then "" else Texts(cs[0].gap) + (cs[0].raw + Joined(cs[1..]))
  }

  /** Chunks alternate between gaps and the characters of one token each. */
  predicate ChunksOk(lenient: bool, cs: seq<Chunk>, ts: seq<Token>) {
    && |cs| == |ts| + 1 && GapOk(cs[0].gap, ts == [])
    && (if ts == [] then cs[0].raw == ""
        else (ts[0].kind != Error ==> IsLexeme(lenient, cs[0].raw)) && ChunksOk(lenient, cs[1..], ts[1..]))
  }

  /** The source is exactly its gaps and tokens, in order. */
  lemma {:induction false} SourcePartition(c: Config, src: string, pos: nat)
    requires pos <= |src|
    ensures Joined(Chunks(c, src, pos)) == src[pos..]
    ensures ChunksOk(c.lenient, Chunks(c, src, pos), TokensFrom(c, src, pos))
    decreases |src| - pos
  {
    var start := SkipTrivia(src, pos).0;
    GapFound(src, pos);
    var cs, ts := Chunks(c, src, pos), TokensFrom(c, src, pos);
    if start == |src| {
      assert cs[1..] == [] && src[pos..] == src[pos..|src|];
      assert "" + Joined([]) == "" && Texts(cs[0].gap) + "" == Texts(cs[0].gap);
    } else {
      var end := ScanToken(c, src, start).end;
      SourcePartition(c, src, end);
      LongestMatch(c, src, start, end);
      assert cs[1..] == Chunks(c, src, end) && ts[1..] == TokensFrom(c, src, end);
      TwoCuts(src, pos, start, end);
    }
  }

  lemma TwoCuts(src: string, a: nat, b: nat, c: nat)
    requires a <= b <= c <= |src|
    ensures src[a..] == src[a..b] + (src[b..c] + src[c..])
  {
  }
}
