/** The lexer: trivia, maximal-munch scanning, and the places it stamps on tokens, as functions of the
    source and as the class that computes them. */
module Lexing {
  import opened Tokens
  import opened Diagnostics

  predicate IsKeyword(kind: Kind) { KW_namespace <= kind <= KW_other || KW_static <= kind <= KW_match }

  type Table = m: map<string, Kind> | forall w :: w in m ==> IsKeyword(m[w]) witness map[]

  /** The two keyword tables. The second one only counts in lenient mode. */
  datatype Config = Config(keywords: Table, aliases: Table, lenient: bool)

  // ---------- Characters ----------

  predicate IsSpace(c: char) { c == ' ' || c == '\t' || c == '\r' || c == '\n' }

  predicate IsDigit(c: char) { '0' <= c <= '9' }

  predicate IsWordStart(c: char) { 'a' <= c <= 'z' || 'A' <= c <= 'Z' || c == '_' }

  predicate IsWordChar(c: char) { IsWordStart(c) || IsDigit(c) }

  /** The character at a place, NUL behind the end. */
  function CharAt(src: string, pos: nat): char {
    if pos < |src| then src[pos] else '\0'
  }

  // ---------- Places ----------

  function LocAt(src: string, pos: nat): Location
    requires pos <= |src|
  {
    if pos == 0 then Location(1, 1)
    else
      var before := LocAt(src, pos - 1);
      if src[pos - 1] == '\n' then Location(before.line + 1, 1) else Location(before.line, before.column + 1)
  }

  lemma {:induction false} LaterIsBehind(src: string, a: nat, b: nat)
    requires a < b <= |src|
    ensures LocAt(src, a).Before(LocAt(src, b))
    decreases b
  {
    if a < b - 1 {
      LaterIsBehind(src, a, b - 1);
    }
  }

  // ---------- Trivia ----------

  function LineEnd(src: string, pos: nat): (end: nat)
    requires pos <= |src|
    ensures pos <= end <= |src|
    decreases |src| - pos
  {
    if pos == |src| || src[pos] == '\n' then pos else LineEnd(src, pos + 1)
  }

  /** Behind the closing mark, or the end of the source when there is none. */
  function BlockEnd(src: string, pos: nat): (r: (nat, bool))
    requires pos <= |src|
    ensures pos <= r.0 <= |src| && (if r.1 then pos + 2 <= r.0 else r.0 == |src|)
    decreases |src| - pos
  {
    if pos == |src| then (pos, false)
    else if src[pos] == '*' && CharAt(src, pos + 1) == '/' then (pos + 2, true)
    else BlockEnd(src, pos + 1)
  }

  /** The first place that is neither white space nor inside a comment, and the errors on the way. */
  function SkipTrivia(src: string, pos: nat): (r: (nat, nat))
    requires pos <= |src|
    ensures pos <= r.0 <= |src|
    decreases |src| - pos
  {
    if pos == |src| then (pos, 0)
    else if IsSpace(src[pos]) then SkipTrivia(src, pos + 1)
    else if src[pos] == '/' && CharAt(src, pos + 1) == '/' then SkipTrivia(src, LineEnd(src, pos + 2))
    else if src[pos] == '/' && CharAt(src, pos + 1) == '*' then
      var block := BlockEnd(src, pos + 2);
      if block.1 then SkipTrivia(src, block.0) else (block.0, 1)
    else (pos, 0)
  }

  // ---------- Tokens ----------

  function WordEnd(src: string, pos: nat): (end: nat)
    requires pos <= |src|
    ensures pos <= end <= |src|
    decreases |src| - pos
  {
    if pos < |src| && IsWordChar(src[pos]) then WordEnd(src, pos + 1) else pos
  }

  function DigitsEnd(src: string, pos: nat): (end: nat)
    requires pos <= |src|
    ensures pos <= end <= |src|
    decreases |src| - pos
  {
    if pos < |src| && IsDigit(src[pos]) then DigitsEnd(src, pos + 1) else pos
  }

  /** Where a string literal's text ends: at a quote, a line end, or the end of the source. */
  function TextEnd(src: string, pos: nat): (end: nat)
    requires pos <= |src|
    ensures pos <= end <= |src|
    decreases |src| - pos
  {
    if pos < |src| && src[pos] != '"' && src[pos] != '\n' then TextEnd(src, pos + 1) else pos
  }

  function WordKind(c: Config, word: string): (kind: Kind)
    ensures IsKeyword(kind) || kind == Identifier
  {
    if word in c.keywords then c.keywords[word]
    else if c.lenient && word in c.aliases then c.aliases[word]
    else Identifier
  }

  /** Operators of two characters; `Error` when there is none. */
  function PairKind(a: char, b: char): Kind {
    if a == ':' && b == ':' then ColonColon
    else if a == '-' && b == '>' then Arrow
    else if a == '=' then (if b == '=' then EqEq else if b == '>' then FatArrow else Error)
    else if a == '!' && b == '=' then NotEq
    else if a == '<' then (if b == '<' then ShiftLeft else if b == '=' then LessEq else Error)
    else if a == '>' then (if b == '>' then ShiftRight else if b == '=' then GreaterEq else Error)
    else if a == '&' && b == '&' then AmpAmp
    else if a == '|' && b == '|' then PipePipe
    else if a == '.' && b == '.' then DotDot
    else Error
  }

  function BracketKind(c: char): Kind {
    if c == '{' then LCurly else if c == '}' then RCurly else if c == '(' then LParen else if c == ')' then RParen
    else if c == '[' then LBracket else if c == ']' then RBracket else if c == ',' then Comma
    else if c == ';' then Semicolon else Error
  }

  function SingleKind(c: char, lenient: bool): Kind {
    if BracketKind(c) != Error then BracketKind(c)
    else if c == '<' then LAngle else if c == '>' then RAngle else if c == ':' then Colon else if c == '=' then Assign
    else if c == '.' then Dot else if c == '&' then Amp else if c == '*' then Star else if c == '+' then Plus
    else if c == '-' then Minus else if c == '/' then Slash else if c == '!' then Bang else if c == '~' then Tilde
    else if c == '%' then Percent else if c == '|' then Pipe else if c == '^' then Caret
    else if lenient && c == '@' then At else if lenient && c == '#' then Hash else Error
  }

  /** A token's kind, its text, and the place behind it. */
  datatype Scan = Scan(kind: Kind, text: string, end: nat)

  function ScanOperator(lenient: bool, src: string, pos: nat): (r: Scan)
    requires pos < |src|
    ensures pos < r.end <= |src|
  {
    var pair := if pos + 1 < |src| then PairKind(src[pos], src[pos + 1]) else Error;
    if pair == DotDot && CharAt(src, pos + 2) == '.' then Scan(Ellipsis, src[pos..pos + 3], pos + 3)
    else if pair != Error then Scan(pair, src[pos..pos + 2], pos + 2)
    else Scan(SingleKind(src[pos], lenient), src[pos..pos + 1], pos + 1)
  }

  function ScanText(src: string, pos: nat): (r: Scan)
    requires pos < |src| && src[pos] == '"'
    ensures pos < r.end <= |src|
  {
    var end := TextEnd(src, pos + 1);
    if CharAt(src, end) == '"' then Scan(StringLiteral, src[pos + 1..end], end + 1) else Scan(Error, "", end)
  }

  function ScanToken(c: Config, src: string, pos: nat): (r: Scan)
    requires pos < |src|
    ensures pos < r.end <= |src| && r.kind != Eof
  {
    if IsWordStart(src[pos]) then
      var end := WordEnd(src, pos + 1);
      Scan(WordKind(c, src[pos..end]), src[pos..end], end)
    else if IsDigit(src[pos]) then
      var end := DigitsEnd(src, pos + 1);
      Scan(IntegerLiteral, src[pos..end], end)
    else if src[pos] == '"' then ScanText(src, pos)
    else ScanOperator(c.lenient, src, pos)
  }

  /** Everything the lexer delivers from a place on, up to the end of file. */
  function TokensFrom(c: Config, src: string, pos: nat): seq<Token>
    requires pos <= |src|
    decreases |src| - pos
  {
    var start := SkipTrivia(src, pos).0;
    if start == |src| then []
    else
      var scan := ScanToken(c, src, start);
      [Token(scan.kind, scan.text, LocAt(src, start))] + TokensFrom(c, src, scan.end)
  }

  // ---------- The lexer ----------

  class Lexer {
    const source: string
    const config: Config
    const diag: DiagnosticEngine
    var pos: nat
    var line: nat
    var column: nat
    var tokenLine: nat
    var tokenColumn: nat
    var buffer: seq<Token>        // delivered instead of the source, if not empty
    var cursor: nat

    ghost predicate Valid()
      reads this, diag
    {
      diag.Valid() && pos <= |source| && Location(line, column) == LocAt(source, pos) && cursor <= |buffer|
    }

    constructor (source: string, config: Config, diag: DiagnosticEngine)
      requires diag.Valid()
      ensures Valid() && pos == 0 && buffer == [] && this.source == source && this.config == config && this.diag == diag
    {
      this.source, this.config, this.diag := source, config, diag;
      pos, line, column, tokenLine, tokenColumn := 0, 1, 1, 1, 1;
      buffer, cursor := [], 0;
    }

    predicate IsAtEnd()
      reads this
    {
      pos >= |source|
    }

    function Peek(): char
      reads this
    {
      CharAt(source, pos)
    }

    function PeekNext(): char
      reads this
    {
      CharAt(source, pos + 1)
    }

    method Advance()
      requires Valid() && pos < |source|
      modifies this`pos, this`line, this`column
      ensures Valid() && pos == old(pos) + 1
    {
      var c := source[pos];
      pos := pos + 1;
      if c == '\n' {
        line, column := line + 1, 1;
      } else {
        column := column + 1;
      }
    }

    method SkipLineComment()
      requires Valid() && pos + 2 <= |source|
      modifies this`pos, this`line, this`column
      ensures Valid() && pos == LineEnd(source, old(pos) + 2)
    {
      Advance();
      Advance();
      while !IsAtEnd() && Peek() != '\n'
        invariant Valid() && pos >= old(pos) + 2 && LineEnd(source, pos) == LineEnd(source, old(pos) + 2)
        decreases |source| - pos
      {
        Advance();
      }
    }

    method SkipBlockComment() returns (closed: bool)
      requires Valid() && pos + 2 <= |source|
      modifies this`pos, this`line, this`column, diag
      ensures Valid() && (pos, closed) == BlockEnd(source, old(pos) + 2)
      ensures diag.errorCount == Capped(old(diag.errorCount) + if closed then 0 else 1)
    {
      var start := Location(line, column);
      Advance();
      Advance();
      closed := false;
      while !IsAtEnd() && !closed
        invariant Valid() && pos >= old(pos) + 2 && diag.errorCount == old(diag.errorCount)
        invariant BlockEnd(source, old(pos) + 2) == if closed then (pos, true) else BlockEnd(source, pos)
        decreases |source| - pos
      {
        if Peek() == '*' && PeekNext() == '/' {
          Advance();
          closed := true;
        }
        Advance();
      }
      if !closed {
        diag.Report(ErrorLevel, start, "unterminated block comment");
      }
    }

    method SkipWhitespace()
      requires Valid()
      modifies this`pos, this`line, this`column, diag
      ensures Valid() && pos == SkipTrivia(source, old(pos)).0
      ensures diag.errorCount == Capped(old(diag.errorCount) + SkipTrivia(source, old(pos)).1)
    {
      var going := true;
      while !IsAtEnd() && going
        invariant Valid() && (diag.errorCount == old(diag.errorCount) || (IsAtEnd() && !going))
        invariant going ==> SkipTrivia(source, old(pos)) == SkipTrivia(source, pos)
        invariant !going ==> pos == SkipTrivia(source, old(pos)).0 && diag.errorCount == Capped(old(diag.errorCount) + SkipTrivia(source, old(pos)).1)
        decreases |source| - pos, going
      {
        var c := Peek();
        if c == ' ' || c == '\t' || c == '\r' || c == '\n' {
          Advance();
        } else if c == '/' && PeekNext() == '/' {
          SkipLineComment();
        } else if c == '/' && PeekNext() == '*' {
          going := SkipBlockComment();
        } else {
          going := false;
        }
      }
    }

    method ScanIdentifierOrKeyword() returns (kind: Kind, text: string)
      requires Valid() && !IsAtEnd() && IsWordStart(Peek())
      modifies this`pos, this`line, this`column
      ensures Valid() && Scan(kind, text, pos) == ScanToken(config, source, old(pos))
    {
      var start := pos;
      while !IsAtEnd() && IsWordChar(Peek())
        invariant Valid() && pos >= start && WordEnd(source, pos) == WordEnd(source, start + 1)
        invariant pos == start || pos > start
        decreases |source| - pos
      {
        Advance();
      }
      text := source[start..pos];
      kind := if text in config.keywords then config.keywords[text]
              else if config.lenient && text in config.aliases then config.aliases[text]
              else Identifier;
    }

    method ScanIntegerLiteral() returns (kind: Kind, text: string)
      requires Valid() && !IsAtEnd() && IsDigit(Peek())
      modifies this`pos, this`line, this`column
      ensures Valid() && Scan(kind, text, pos) == ScanToken(config, source, old(pos))
    {
      var start := pos;
      while !IsAtEnd() && IsDigit(Peek())
        invariant Valid() && pos >= start && DigitsEnd(source, pos) == DigitsEnd(source, start + 1)
        decreases |source| - pos
      {
        Advance();
      }
      kind, text := IntegerLiteral, source[start..pos];
    }

    method ScanStringLiteral() returns (kind: Kind, text: string)
      requires Valid() && !IsAtEnd() && Peek() == '"'
      modifies this`pos, this`line, this`column, diag
      ensures Valid() && Scan(kind, text, pos) == ScanToken(config, source, old(pos))
      ensures diag.errorCount == Capped(old(diag.errorCount) + if kind == Error then 1 else 0)
    {
      Advance();
      var start := pos;
      while !IsAtEnd() && Peek() != '"' && Peek() != '\n'
        invariant Valid() && pos >= start && TextEnd(source, pos) == TextEnd(source, start)
        invariant diag.errorCount == old(diag.errorCount)
        decreases |source| - pos
      {
        Advance();
      }
      assert pos == TextEnd(source, start);
      assert ScanToken(config, source, start - 1) == ScanText(source, start - 1);
      if IsAtEnd() || Peek() == '\n' {
        diag.Report(ErrorLevel, Location(tokenLine, tokenColumn), "unterminated string literal");
        kind, text := Error, "";
      } else {
        kind, text := StringLiteral, source[start..pos];
        Advance();
      }
    }

    method ScanSymbol() returns (kind: Kind, text: string)
      requires Valid() && !IsAtEnd()
      modifies this`pos, this`line, this`column
      ensures Valid() && Scan(kind, text, pos) == ScanOperator(config.lenient, source, old(pos))
    {
      var start, c := pos, Peek();
      kind := PairKind(c, PeekNext());
      Advance();
      if kind == Error {
        kind := SingleKind(c, config.lenient);
      } else {
        Advance();
        if kind == DotDot && Peek() == '.' {
          Advance();
          kind := Ellipsis;
        }
      }
      text := source[start..pos];
    }

    method ScanCurrent() returns (kind: Kind, text: string)
      requires Valid() && !IsAtEnd()
      modifies this`pos, this`line, this`column, diag
      ensures Valid() && Scan(kind, text, pos) == ScanToken(config, source, old(pos))
      ensures diag.errorCount == Capped(old(diag.errorCount) + if kind == Error then 1 else 0)
    {
      hide LocAt, SkipTrivia;
      var c := Peek();
      if IsWordStart(c) {
        kind, text := ScanIdentifierOrKeyword();
      } else if IsDigit(c) {
        kind, text := ScanIntegerLiteral();
      } else if c == '"' {
        kind, text := ScanStringLiteral();
      } else {
        kind, text := ScanSymbol();
        if kind == Error {
          diag.Report(ErrorLevel, Location(tokenLine, tokenColumn), "unexpected character '" + text + "'");
        }
      }
    }

    method SetTokenBuffer(tokens: seq<Token>)
      requires Valid()
      modifies this`buffer, this`cursor
      ensures Valid() && buffer == tokens && cursor == 0
    {
      buffer, cursor := tokens, 0;
    }

    /** The next token of the buffer, if there is one, else the next of `TokensFrom`; what is delivered
        and what is left make up the whole. Behind a buffer's end the source stays untouched. */
    method NextToken() returns (t: Token)
      requires Valid()
      modifies this, diag
      ensures Valid() && buffer == old(buffer)
      ensures buffer != [] ==>
              && pos == old(pos) && diag.errorCount == old(diag.errorCount)
              && buffer[old(cursor)..] == (if old(cursor) < |buffer| then [t] + buffer[cursor..] else [])
              && (old(cursor) == |buffer| ==> t == Token(Eof, "", old(Location(tokenLine, tokenColumn))))
      ensures buffer == [] ==>
              && TokensFrom(config, source, old(pos)) == (if t.kind == Eof then [] else [t] + TokensFrom(config, source, pos))
              && (t.kind == Eof ==> pos == |source| && t == Token(Eof, "", LocAt(source, pos)))
              && diag.errorCount == Capped(old(diag.errorCount) + ErrorsAt(config, source, old(pos)))
    {
      hide ScanToken, SkipTrivia, LocAt;
      if buffer != [] {
        if cursor < |buffer| {
          t := buffer[cursor];
          cursor := cursor + 1;
        } else {
          t := Token(Eof, "", Location(tokenLine, tokenColumn));
        }
        return;
      }
      SkipWhitespace();
      tokenLine, tokenColumn := line, column;
      if IsAtEnd() {
        return Token(Eof, "", Location(tokenLine, tokenColumn));
      }
      var kind, text := ScanCurrent();
      t := Token(kind, text, Location(tokenLine, tokenColumn));
    }
  }

  /** Errors one call reports: an unclosed comment, or a token that is none. */
  function ErrorsAt(c: Config, src: string, pos: nat): nat
    requires pos <= |src|
  {
    var skipped := SkipTrivia(src, pos);
    skipped.1 + if skipped.0 < |src| && ScanToken(c, src, skipped.0).kind == Error then 1 else 0
  }
}
