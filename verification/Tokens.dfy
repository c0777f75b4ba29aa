/** Tokens as the lexer hands them to the parser, and the view of a token list the parsing
    functions work on. */
module Tokens {

  /** Token kinds, numbered as an enumeration. `KW_stdlib` stands for every stdlib type keyword but
      `record` and `union` (the text tells them apart), `KW_other` for the keywords no modelled
      branch names. */
  newtype Kind = k: int | 0 <= k < 86

  const Eof: Kind := 0
  const Error: Kind := 1
  const Identifier: Kind := 2
  const IntegerLiteral: Kind := 3
  const StringLiteral: Kind := 4
  const KW_namespace: Kind := 5
  const KW_using: Kind := 6
  const KW_import: Kind := 7
  const KW_public: Kind := 8
  const KW_protected: Kind := 9
  const KW_private: Kind := 10
  const KW_internal: Kind := 11
  const KW_ignore: Kind := 12
  const KW_fn: Kind := 13
  const KW_stage: Kind := 14
  const KW_const: Kind := 15
  const KW_void: Kind := 16
  const KW_true: Kind := 17
  const KW_false: Kind := 18
  const KW_class: Kind := 19
  const KW_typename: Kind := 20
  const KW_constraint: Kind := 21
  const KW_adapt: Kind := 22
  const KW_instantiate: Kind := 23
  const KW_owned: Kind := 24
  const KW_shared: Kind := 25
  const KW_weak: Kind := 26
  const KW_priority: Kind := 27
  const KW_type: Kind := 28
  const KW_handler: Kind := 29
  const KW_flow: Kind := 30
  const KW_record: Kind := 31
  const KW_union: Kind := 32
  const KW_stdlib: Kind := 33
  const KW_other: Kind := 34
  const FatArrow: Kind := 35
  const Assign: Kind := 36
  const Arrow: Kind := 37
  const ColonColon: Kind := 38
  const Dot: Kind := 39
  const Plus: Kind := 40
  const Minus: Kind := 41
  const Slash: Kind := 42
  const Bang: Kind := 43
  const EqEq: Kind := 44
  const NotEq: Kind := 45
  const LessEq: Kind := 46
  const GreaterEq: Kind := 47
  const Percent: Kind := 48
  const Pipe: Kind := 49
  const Caret: Kind := 50
  const ShiftLeft: Kind := 51
  const ShiftRight: Kind := 52
  const AmpAmp: Kind := 53
  const PipePipe: Kind := 54
  const LCurly: Kind := 55
  const RCurly: Kind := 56
  const LParen: Kind := 57
  const RParen: Kind := 58
  const LAngle: Kind := 59
  const RAngle: Kind := 60
  const Comma: Kind := 61
  const Semicolon: Kind := 62
  const Colon: Kind := 63
  const Amp: Kind := 64
  const Star: Kind := 65
  const Tilde: Kind := 66
  const DotDot: Kind := 67
  const Ellipsis: Kind := 68
  const At: Kind := 69
  const Hash: Kind := 70
  const LBracket: Kind := 71
  const RBracket: Kind := 72
  const KW_static: Kind := 73
  const KW_explicit: Kind := 74
  const KW_comptime: Kind := 75
  const KW_external: Kind := 76
  const KW_if: Kind := 77
  const KW_else: Kind := 78
  const KW_operator: Kind := 79
  const KW_template: Kind := 80
  const KW_typefn: Kind := 81
  const KW_virtual: Kind := 82
  const KW_with: Kind := 83
  const KW_for: Kind := 84
  const KW_match: Kind := 85

  datatype Location = Location(line: nat, column: nat) {
    predicate Before(o: Location) {
      line < o.line || (line == o.line && column < o.column)
    }
  }

  datatype Token = Token(kind: Kind, text: string, loc: Location) {
    function Bare(): Lexeme { Lexeme(kind, text) }
  }

  /** What is left of a `>>` whose first half has been consumed. */
  function SecondHalf(t: Token): Token {
    Token(RAngle, ">", Location(t.loc.line, t.loc.column + 1))
  }

  /** A token without its position. No branch of the modelled grammar looks at positions. */
  datatype Lexeme = Lexeme(kind: Kind, text: string)

  /** What is left to parse, up to but not including the end of file. */
  type Stream = seq<Lexeme>

  function Head(s: Stream): Kind { if s == [] then Eof else s[0].kind }

  function HeadText(s: Stream): string { if s == [] then "" else s[0].text }

  function Tail(s: Stream): (t: Stream)
    ensures |t| <= |s| && (s != [] ==> |t| < |s|)
  {
    if s == [] then [] else s[1..]
  }

  function Second(s: Stream): Kind { Head(Tail(s)) }

  ghost predicate NoEof(ts: seq<Token>) {
    forall i :: 0 <= i < |ts| ==> ts[i].kind != Eof
  }

  function Lexemes(ts: seq<Token>): (s: Stream)
    ensures |s| == |ts|
    ensures forall i :: 0 <= i < |ts| ==> s[i] == ts[i].Bare()
  {
    seq(|ts|, i requires 0 <= i < |ts| => ts[i].Bare())
  }

  lemma LexemesCons(t: Token, more: seq<Token>)
    ensures Lexemes([t] + more) == [t.Bare()] + Lexemes(more)
  {
  }

  /** The result of `expect`: the rest of the stream and how many errors it reported. */
  function Expect(s: Stream, kind: Kind): (r: (Stream, nat))
    ensures |r.0| <= |s|
  {
    if Head(s) == kind then (Tail(s), 0) else (s, 1)
  }
}
