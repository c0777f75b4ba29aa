/** How punctuation is spelled, and bookkeeping on printed token lists that every printer needs; nothing
    here is particular to one grammar. */
module Spelling {
  import opened Tokens

  function Spell(kind: Kind): string {
    if kind == PipePipe then "||" else if kind == AmpAmp then "&&"
    else if kind == EqEq then "==" else if kind == NotEq then "!="
    else if kind == LAngle then "<" else if kind == RAngle then ">"
    else if kind == LessEq then "<=" else if kind == GreaterEq then ">="
    else if kind == Plus then "+" else if kind == Minus then "-"
    else if kind == Star then "*" else if kind == Slash then "/" else if kind == Bang then "!"
    else if kind == LParen then "(" else if kind == RParen then ")"
    else if kind == Comma then "," else if kind == Dot then "."
    else if kind == Colon then ":" else if kind == ColonColon then "::"
    else if kind == Amp then "&" else if kind == Ellipsis then "..."
    else if kind == Arrow then "->" else if kind == Semicolon then ";"
    else ""
  }

  /** Punctuation and the two truth values carry their spelling, as the lexer produces them. */
  predicate Spelt(x: Lexeme) {
    (Spell(x.kind) != "" ==> x.text == Spell(x.kind)) &&
    (x.kind == KW_true ==> x.text == "true") && (x.kind == KW_false ==> x.text == "false")
  }

  predicate WellSpelled(s: Stream) {
    forall i :: 0 <= i < |s| ==> Spelt(s[i])
  }

  lemma HeadSpelt(s: Stream)
    requires WellSpelled(s) && s != []
    ensures Spelt(s[0])
  {
  }

  lemma TailSpelled(s: Stream)
    requires WellSpelled(s)
    ensures WellSpelled(Tail(s))
  {
  }

  /** Well-spelled punctuation at the head. */
  lemma SpeltHead(s: Stream)
    requires WellSpelled(s) && s != [] && Spell(Head(s)) != ""
    ensures s == Sym(Head(s)) + Tail(s) && WellSpelled(Tail(s))
  {
  }

  function Sym(kind: Kind): Stream { [Lexeme(kind, Spell(kind))] }

  lemma SymHead(kind: Kind, more: Stream)
    ensures Head(Sym(kind) + more) == kind && Tail(Sym(kind) + more) == more
  {
  }

  lemma Reassociate(a: Stream, b: Stream, c: Stream, d: Stream)
    ensures (a + (b + c)) + d == a + (b + (c + d))
  {
  }

  lemma Assoc(a: Stream, b: Stream, c: Stream)
    ensures (a + b) + c == a + (b + c)
  {
  }

  /** Looking at and past the first two tokens of a printed list that something follows. */
  lemma TwoAhead(s: Stream, a: Lexeme, b: Lexeme, more: Stream, u: Stream)
    requires s == [a, b] + more
    ensures var t := s + u;
            Head(t) == a.kind && Second(t) == b.kind && HeadText(Tail(t)) == b.text && Tail(Tail(t)) == more + u
  {
    TwoOff(a, b, more + u);
    Assoc([a, b], more, u);
  }

  lemma PairUp(a: Lexeme, b: Lexeme, more: Stream)
    ensures [a] + ([b] + more) == [a, b] + more
  {
  }

  lemma TwoOff(a: Lexeme, b: Lexeme, u: Stream)
    ensures var t := [a, b] + u;
            Head(t) == a.kind && Second(t) == b.kind && HeadText(Tail(t)) == b.text && Tail(Tail(t)) == u
  {
    var t := [a, b] + u;
    assert t[0] == a && t[1] == b && t[1..][1..] == u;
  }
}
