/** How operators group. */
module ExprGrouping {
  // Which operators there are and how they group, with their order written out here.

  import opened Tokens
  import opened TokenBuffer
  import opened ExprParser
  import opened ExprPrinter
  import opened Spelling

  /** The binary operators, those that bind tighter further behind. */
  const LADDER: seq<set<Kind>> := [
    {PipePipe}, {AmpAmp}, {EqEq, NotEq}, {LAngle, RAngle, LessEq, GreaterEq}, {Plus, Minus}, {Star, Slash}]

  lemma LadderIsPrecedence(i: nat, o: Kind)
    requires i < |LADDER|
    ensures o in LADDER[i] <==> Precedence(o) == i + 1
    ensures o in LADDER[i] ==> o != Dot && o != LParen
  {
  }

  lemma NotOnLadder(o: Kind)
    requires forall i :: 0 <= i < |LADDER| ==> o !in LADDER[i]
    ensures Precedence(o) < 0
  {
    assert o !in LADDER[0] && o !in LADDER[1] && o !in LADDER[2] && o !in LADDER[3] && o !in LADDER[4] && o !in LADDER[5];
  }

  /** Operands of operators: anything but a bare operation. */
  predicate Operand(f: Form) { Ok(f, OPERAND) }

  lemma OperandAnywhere(f: Form, level: nat)
    requires Operand(f) && level <= OPERAND
    ensures Ok(f, level)
  {
    Lowers(f, OPERAND, level);
  }

  /** What an expression may end in front of. */
  predicate Stops(f: Form, rest: Stream) {
    !Extends(f, rest) && forall i :: 0 <= i < |LADDER| ==> Head(rest) !in LADDER[i]
  }

  /** Of two operators the second one takes the operand between them exactly if it stands further behind. */
  lemma OperatorsGroup(x: Form, i: nat, o: Kind, y: Form, j: nat, q: Kind, z: Form, rest: Stream, depth: nat)
    requires Operand(x) && Operand(y) && Operand(z) && Stops(z, rest)
    requires i < |LADDER| && o in LADDER[i] && j < |LADDER| && q in LADDER[j]
    requires depth + 3 + Max(Depth(x), Max(Depth(y), Depth(z))) <= MAX_RECURSION_DEPTH
    ensures ParseBinary(Put(x) + (Sym(o) + (Put(y) + (Sym(q) + (Put(z) + rest)))), 1, depth) ==
            Parsed(if i < j then Binary(o, Tree(x), Binary(q, Tree(y), Tree(z)))
                   else Binary(q, Binary(o, Tree(x), Tree(y)), Tree(z)), rest, 0)
  {
    hide Ok, Tree, Put, Depth, Extends, ParseBinary, LADDER;
    LadderIsPrecedence(i, o);
    LadderIsPrecedence(j, q);
    NotOnLadder(Head(rest));
    OperandAnywhere(x, Precedence(o));
    OperandAnywhere(z, Precedence(q) + 1);
    if i < j {
      OperandAnywhere(y, Precedence(q));
      var g := Joined(q, y, z, rest);
      Lowers(g, Precedence(q), Precedence(o) + 1);
      var f := Joined(o, x, g, rest);
      Lowers(f, Precedence(o), 1);
      RightNested(Put(x), Sym(o), Put(y), Sym(q), Put(z), rest);
      WholeReads(f, rest, depth);
    } else {
      OperandAnywhere(y, Precedence(o) + 1);
      var g := Joined(o, x, y, rest);
      Lowers(g, Precedence(o), Precedence(q));
      var f := Joined(q, g, z, rest);
      Lowers(f, Precedence(q), 1);
      LeftNested(Put(x), Sym(o), Put(y), Sym(q), Put(z), rest);
      WholeReads(f, rest, depth);
    }
  }

  lemma Joined(o: Kind, x: Form, y: Form, rest: Stream) returns (f: Form)
    requires IsBinaryOperator(o) && Ok(x, Precedence(o)) && Ok(y, Precedence(o) + 1)
    ensures f == Infix(o, x, y) && Ok(f, Precedence(o)) && Tree(f) == Binary(o, Tree(x), Tree(y))
    ensures Put(f) == Put(x) + (Sym(o) + Put(y)) && Depth(f) == Max(Depth(x), 1 + Depth(y))
    ensures Extends(f, rest) == Extends(y, rest)
  {
    f := Infix(o, x, y);
  }

  lemma RightNested(a: Stream, b: Stream, c: Stream, d: Stream, e: Stream, u: Stream)
    ensures (a + (b + (c + (d + e)))) + u == a + (b + (c + (d + (e + u))))
  {
  }

  lemma LeftNested(a: Stream, b: Stream, c: Stream, d: Stream, e: Stream, u: Stream)
    ensures ((a + (b + c)) + (d + e)) + u == a + (b + (c + (d + (e + u))))
  {
  }

  /** Prefix operators bind tighter than all of them. */
  lemma PrefixFirst(u: Kind, x: Form, i: nat, o: Kind, y: Form, rest: Stream, depth: nat)
    requires (u == Bang || u == Minus) && Operand(x) && Operand(y) && Stops(y, rest) && i < |LADDER| && o in LADDER[i]
    requires depth + 2 + Max(Depth(x), Depth(y)) <= MAX_RECURSION_DEPTH
    ensures ParseBinary(Sym(u) + (Put(x) + (Sym(o) + (Put(y) + rest))), 1, depth) ==
            Parsed(Binary(o, Unary(u, Tree(x)), Tree(y)), rest, 0)
  {
    LadderIsPrecedence(i, o);
    NotOnLadder(Head(rest));
    OperandAnywhere(y, Precedence(o) + 1);
    var g := Prefixed(u, x);
    var f := Infix(o, g, y);
    assert Ok(g, OPERAND) && Tree(g) == Unary(u, Tree(x)) && Put(g) == Sym(u) + Put(x) && Depth(g) == Depth(x);
    OperandAnywhere(g, Precedence(o));
    assert Ok(f, 1) && Put(f) == Put(g) + (Sym(o) + Put(y)) && Tree(f) == Binary(o, Tree(g), Tree(y));
    PrefixNested(Sym(u), Put(x), Sym(o), Put(y), rest);
    WholeReads(f, rest, depth);
  }

  lemma PrefixNested(a: Stream, b: Stream, c: Stream, d: Stream, u: Stream)
    ensures ((a + b) + (c + d)) + u == a + (b + (c + (d + u)))
  {
  }

  /** In front of any other kind of token the expression ends. */
  lemma NothingElseContinues(x: Form, rest: Stream, depth: nat)
    requires Operand(x) && Stops(x, rest) && depth + 1 + Depth(x) <= MAX_RECURSION_DEPTH
    ensures ParseBinary(Put(x) + rest, 1, depth) == Parsed(Tree(x), rest, 0)
  {
    NotOnLadder(Head(rest));
    OperandAnywhere(x, 1);
    WholeReads(x, rest, depth);
  }

  /** And with any other kind of token none begins. */
  lemma NothingElseBegins(s: Stream, depth: nat)
    requires Head(s) !in {Bang, Minus, LParen, IntegerLiteral, StringLiteral, KW_true, KW_false, Identifier}
    ensures ParseBinary(s, 1, depth).errors > 0
  {
    if depth < MAX_RECURSION_DEPTH {
      assert ParseUnary(s, depth + 1) == Parsed(DUMMY, s, 1);
      ErrorsGrow(ParseUnary(s, depth + 1), 1, depth + 1);
    }
  }

  /** `a || b && c`, `a - b - c`, `!a == b`. */
  lemma Examples(a: string, b: string, c: string)
    ensures var x, y, z := Put(Named([a])), Put(Named([b])), Put(Named([c]));
            && ParseBinary(x + (Sym(PipePipe) + (y + (Sym(AmpAmp) + (z + [])))), 1, 0).value ==
               Binary(PipePipe, Ident([a]), Binary(AmpAmp, Ident([b]), Ident([c])))
            && ParseBinary(x + (Sym(Minus) + (y + (Sym(Minus) + (z + [])))), 1, 0).value ==
               Binary(Minus, Binary(Minus, Ident([a]), Ident([b])), Ident([c]))
            && ParseBinary(Sym(Bang) + (x + (Sym(EqEq) + (y + []))), 1, 0).value ==
               Binary(EqEq, Unary(Bang, Ident([a])), Ident([b]))
  {
    OperatorsGroup(Named([a]), 0, PipePipe, Named([b]), 1, AmpAmp, Named([c]), [], 0);
    OperatorsGroup(Named([a]), 4, Minus, Named([b]), 4, Minus, Named([c]), [], 0);
    PrefixFirst(Bang, Named([a]), 2, EqEq, Named([b]), [], 0);
  }
}
