/** What every character starts. */
module LexerTable {
  // The lexemes with a fixed spelling and their kinds, written down once more as tables, and the token the
  // lexer makes of whatever stands at a place, said with these tables and nothing of the lexer's own.

  import opened Tokens
  import opened Lexing

  const ONE: map<char, Kind> := map[
    '{' := LCurly, '}' := RCurly, '(' := LParen, ')' := RParen, '[' := LBracket, ']' := RBracket, '<' := LAngle,
    '>' := RAngle, ',' := Comma, ';' := Semicolon, ':' := Colon, '=' := Assign, '.' := Dot, '&' := Amp, '*' := Star,
    '+' := Plus, '-' := Minus, '/' := Slash, '!' := Bang, '~' := Tilde, '%' := Percent, '|' := Pipe, '^' := Caret]

  const TWO: map<(char, char), Kind> := map[
    (':', ':') := ColonColon, ('-', '>') := Arrow, ('=', '=') := EqEq, ('=', '>') := FatArrow, ('!', '=') := NotEq,
    ('<', '<') := ShiftLeft, ('<', '=') := LessEq, ('>', '>') := ShiftRight, ('>', '=') := GreaterEq,
    ('&', '&') := AmpAmp, ('|', '|') := PipePipe, ('.', '.') := DotDot]

  /** Only in lenient mode. */
  const EXTRA: map<char, Kind> := map['@' := At, '#' := Hash]

  predicate Letter(c: char) { 'a' <= c <= 'z' || 'A' <= c <= 'Z' || c == '_' }

  predicate Digit(c: char) { c in {'0', '1', '2', '3', '4', '5', '6', '7', '8', '9'} }

  lemma OneByTable(c: char, lenient: bool)
    ensures SingleKind(c, lenient) == if c in ONE then ONE[c] else if lenient && c in EXTRA then EXTRA[c] else Error
  {
  }

  lemma TwoByTable(a: char, b: char)
    ensures PairKind(a, b) == if (a, b) in TWO then TWO[(a, b)] else Error
  {
  }

  /** Punctuation: three dots, else the longest of the tables that stands there, else an error. */
  lemma PunctuationRead(c: Config, src: string, pos: nat)
    requires pos < |src| && !Letter(src[pos]) && !Digit(src[pos]) && src[pos] != '"'
    ensures ScanToken(c, src, pos) ==
            if pos + 3 <= |src| && src[pos..pos + 3] == "..." then Scan(Ellipsis, "...", pos + 3)
            else if pos + 2 <= |src| && (src[pos], src[pos + 1]) in TWO then
              Scan(TWO[(src[pos], src[pos + 1])], src[pos..pos + 2], pos + 2)
            else if src[pos] in ONE then Scan(ONE[src[pos]], [src[pos]], pos + 1)
            else if c.lenient && src[pos] in EXTRA then Scan(EXTRA[src[pos]], [src[pos]], pos + 1)
            else Scan(Error, [src[pos]], pos + 1)
  {
    hide SingleKind, PairKind, ONE, TWO, EXTRA;
    assert ScanToken(c, src, pos) == ScanOperator(c.lenient, src, pos);
    OneByTable(src[pos], c.lenient);
    assert src[pos..pos + 1] == [src[pos]];
    if pos + 2 <= |src| {
      TwoByTable(src[pos], src[pos + 1]);
      NoErrors(src[pos], src[pos + 1]);
      if pos + 3 <= |src| { assert src[pos..pos + 3] == [src[pos], src[pos + 1], src[pos + 2]]; }
    }
  }

  lemma NoErrors(a: char, b: char)
    ensures (a, b) in TWO ==> TWO[(a, b)] != Error && (TWO[(a, b)] == DotDot <==> a == '.' && b == '.')
    ensures ('.', '.') in TWO
  {
  }

  /** Words: as many letters, digits and underscores as stand there, with the kind the tables of words give. */
  lemma WordRead(c: Config, src: string, pos: nat, end: nat)
    requires pos < end <= |src| && Letter(src[pos]) && (forall i :: pos <= i < end ==> Letter(src[i]) || Digit(src[i]))
    requires end < |src| ==> !Letter(src[end]) && !Digit(src[end])
    ensures var word := src[pos..end];
            ScanToken(c, src, pos) ==
            Scan(if word in c.keywords then c.keywords[word] else if c.lenient && word in c.aliases then c.aliases[word]
                 else Identifier, word, end)
  {
    WordEndIs(src, pos + 1, end);
  }

  lemma {:induction false} WordEndIs(src: string, pos: nat, end: nat)
    requires pos <= end <= |src| && (forall i :: pos <= i < end ==> Letter(src[i]) || Digit(src[i]))
    requires end < |src| ==> !Letter(src[end]) && !Digit(src[end])
    ensures WordEnd(src, pos) == end
    decreases end - pos
  {
    if pos < end { WordEndIs(src, pos + 1, end); }
  }

  /** Numbers: as many digits as stand there. */
  lemma NumberRead(c: Config, src: string, pos: nat, end: nat)
    requires pos < end <= |src| && (forall i :: pos <= i < end ==> Digit(src[i])) && (end < |src| ==> !Digit(src[end]))
    ensures ScanToken(c, src, pos) == Scan(IntegerLiteral, src[pos..end], end)
  {
    DigitsEndIs(src, pos + 1, end);
  }

  lemma {:induction false} DigitsEndIs(src: string, pos: nat, end: nat)
    requires pos <= end <= |src| && (forall i :: pos <= i < end ==> Digit(src[i])) && (end < |src| ==> !Digit(src[end]))
    ensures DigitsEnd(src, pos) == end
    decreases end - pos
  {
    if pos < end { DigitsEndIs(src, pos + 1, end); }
  }

  /** Texts: up to the next quote on the line, without the quotes; without one an error up to the end of the
      line. */
  lemma TextRead(c: Config, src: string, pos: nat, end: nat)
    requires pos < end <= |src| && src[pos] == '"' && (forall i :: pos < i < end ==> src[i] != '"' && src[i] != '\n')
    requires end < |src| ==> src[end] == '"' || src[end] == '\n'
    ensures ScanToken(c, src, pos) ==
            if end < |src| && src[end] == '"' then Scan(StringLiteral, src[pos + 1..end], end + 1) else Scan(Error, "", end)
  {
    TextEndIs(src, pos + 1, end);
  }

  lemma {:induction false} TextEndIs(src: string, pos: nat, end: nat)
    requires pos <= end <= |src| && (forall i :: pos <= i < end ==> src[i] != '"' && src[i] != '\n')
    requires end < |src| ==> src[end] == '"' || src[end] == '\n'
    ensures TextEnd(src, pos) == end
    decreases end - pos
  {
    if pos < end { TextEndIs(src, pos + 1, end); }
  }

  /** Blanks, tabs and line ends are passed over, and comments; anything else is where a token starts. */
  lemma TriviaPassed(src: string, pos: nat)
    requires pos < |src|
    ensures src[pos] in {' ', '\t', '\r', '\n'} ==> SkipTrivia(src, pos) == SkipTrivia(src, pos + 1)
    ensures src[pos] !in {' ', '\t', '\r', '\n', '/'} ==> SkipTrivia(src, pos) == (pos, 0)
    ensures src[pos] == '/' && !(pos + 1 < |src| && src[pos + 1] in {'/', '*'}) ==> SkipTrivia(src, pos) == (pos, 0)
  {
  }

  function LineEnds(s: string): nat {
    if s == "" then 0 else LineEnds(s[..|s| - 1]) + if s[|s| - 1] == '\n' then 1 else 0
  }

  /** Lines are counted from one by the line ends before a place, columns from one by the characters since. */
  lemma {:induction false} PlacesCounted(src: string, pos: nat, start: nat)
    requires start <= pos <= |src| && '\n' !in src[start..pos] && (start > 0 ==> src[start - 1] == '\n')
    ensures LocAt(src, pos) == Location(1 + LineEnds(src[..pos]), 1 + pos - start)
    decreases pos
  {
    if pos > 0 {
      assert src[..pos][..pos - 1] == src[..pos - 1] && src[..pos][pos - 1] == src[pos - 1];
      if start < pos {
        assert src[pos - 1] == src[start..pos][pos - 1 - start];
        assert src[start..pos - 1] == src[start..pos][..pos - 1 - start];
        PlacesCounted(src, pos - 1, start);
      } else {
        var before := LineStart(src, pos - 1);
        PlacesCounted(src, pos - 1, before);
      }
    }
  }

  /** Where the line of a place starts. */
  lemma {:induction false} LineStart(src: string, pos: nat) returns (start: nat)
    requires pos <= |src|
    ensures start <= pos && '\n' !in src[start..pos] && (start > 0 ==> src[start - 1] == '\n')
    decreases pos
  {
    if pos == 0 || src[pos - 1] == '\n' {
      start := pos;
    } else {
      start := LineStart(src, pos - 1);
      assert src[start..pos] == src[start..pos - 1] + [src[pos - 1]];
    }
  }
}
