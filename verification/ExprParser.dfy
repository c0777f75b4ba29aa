/** Expression parsing by precedence climbing, its meaning as a function on the token list, and the methods
    that compute that function. */
module ExprParser {
  import opened Tokens
  import opened Diagnostics
  import opened TokenBuffer

  /** Names keep their dotted parts apart; the program joins them with '.'. */
  datatype Expr =
    | Literal(kind: Kind, text: string)
    | Ident(name: seq<string>)
    | Call(name: seq<string>, args: seq<Expr>)
    | Unary(op: Kind, operand: Expr)
    | Binary(op: Kind, lhs: Expr, rhs: Expr)

  const DUMMY := Literal(IntegerLiteral, "0")

  function Precedence(kind: Kind): int {
    if kind == PipePipe then 1
    else if kind == AmpAmp then 2
    else if kind == EqEq || kind == NotEq then 3
    else if kind == LAngle || kind == RAngle || kind == LessEq || kind == GreaterEq then 4
    else if kind == Plus || kind == Minus then 5
    else if kind == Star || kind == Slash then 6
    else -1
  }

  predicate IsBinaryOperator(kind: Kind) { Precedence(kind) > 0 }

  predicate IsUnaryOperator(kind: Kind) { kind == Bang || kind == Minus }

  // ---------- The grammar on token lists ----------

  /** What a parse returns, leaves unread, and the number of errors it reports. */
  datatype Parsed<T> = Parsed(value: T, rest: Stream, errors: nat)

  function ParseName(s: Stream): (r: Parsed<seq<string>>)
    ensures |r.rest| <= |s| && (Head(s) == Identifier ==> |r.rest| < |s|)
  {
    if Head(s) == Identifier then
      var more := ParseNameMore([HeadText(s)], Tail(s));
      Parsed(more.0, more.1, 0)
    else
      var more := ParseNameMore([HeadText(s)], s);
      Parsed(more.0, more.1, 1)
  }

  function ParseNameMore(name: seq<string>, s: Stream): (r: (seq<string>, Stream))
    ensures |r.1| <= |s|
    decreases |s|
  {
    if Head(s) == Dot && Second(s) == Identifier then ParseNameMore(name + [HeadText(Tail(s))], Tail(Tail(s)))
    else (name, s)
  }

  /** `depth` is the recursion counter on entry. */
  function ParseBinary(s: Stream, minPrec: nat, depth: nat): (r: Parsed<Expr>)
    ensures |r.rest| <= |s|
    decreases |s|, 3
  {
    if depth >= MAX_RECURSION_DEPTH then Parsed(DUMMY, s, 1)
    else ParseOperators(ParseUnary(s, depth + 1), minPrec, depth + 1)
  }

  predicate Climbs(s: Stream, minPrec: nat) {
    IsBinaryOperator(Head(s)) && Precedence(Head(s)) >= minPrec
  }

  function ParseOperators(lhs: Parsed<Expr>, minPrec: nat, depth: nat): (r: Parsed<Expr>)
    ensures |r.rest| <= |lhs.rest|
    decreases |lhs.rest|, 2
  {
    if Climbs(lhs.rest, minPrec) then ParseOperators(ParseOperator(lhs, depth), minPrec, depth) else lhs
  }

  /** One operator and its right operand, which takes everything that binds tighter. */
  function ParseOperator(lhs: Parsed<Expr>, depth: nat): (r: Parsed<Expr>)
    requires IsBinaryOperator(Head(lhs.rest))
    ensures |r.rest| < |lhs.rest|
    decreases |lhs.rest|, 1
  {
    var op := Head(lhs.rest);
    var rhs := ParseBinary(Tail(lhs.rest), Precedence(op) + 1, depth);
    Parsed(Binary(op, lhs.value, rhs.value), rhs.rest, lhs.errors + rhs.errors)
  }

  function ParseUnary(s: Stream, depth: nat): (r: Parsed<Expr>)
    ensures |r.rest| <= |s|
    decreases |s|, 1
  {
    if IsUnaryOperator(Head(s)) then
      var operand := ParseUnary(Tail(s), depth);
      operand.(value := Unary(Head(s), operand.value))
    else ParsePrimary(s, depth)
  }

  function ParsePrimary(s: Stream, depth: nat): (r: Parsed<Expr>)
    ensures |r.rest| <= |s|
    decreases |s|, 0
  {
    if Head(s) == LParen then
      var inner := ParseBinary(Tail(s), 1, depth);
      var close := Expect(inner.rest, RParen);
      Parsed(inner.value, close.0, inner.errors + close.1)
    else if Head(s) == IntegerLiteral || Head(s) == StringLiteral then
      Parsed(Literal(Head(s), HeadText(s)), Tail(s), 0)
    else if Head(s) == KW_true then Parsed(Literal(KW_true, "true"), Tail(s), 0)
    else if Head(s) == KW_false then Parsed(Literal(KW_false, "false"), Tail(s), 0)
    else if Head(s) == Identifier then
      var name := ParseName(s);
      if Head(name.rest) == LParen then
        var args := CallArgs(Tail(name.rest), depth);
        var close := Expect(args.rest, RParen);
        Parsed(Call(name.value, args.value), close.0, args.errors + close.1)
      else Parsed(Ident(name.value), name.rest, 0)
    else Parsed(DUMMY, s, 1)
  }

  function CallArgs(s: Stream, depth: nat): (r: Parsed<seq<Expr>>)
    ensures |r.rest| <= |s|
    decreases |s|, 5
  {
    if Head(s) == RParen then Parsed([], s, 0) else ParseArgs([], s, 0, depth)
  }

  /** One or more arguments separated by commas, appended to `done`. */
  function ParseArgs(done: seq<Expr>, s: Stream, errors: nat, depth: nat): (r: Parsed<seq<Expr>>)
    ensures |r.rest| <= |s|
    decreases |s|, 4
  {
    var arg := ParseBinary(s, 1, depth);
    if Head(arg.rest) == Comma then ParseArgs(done + [arg.value], Tail(arg.rest), errors + arg.errors, depth)
    else Parsed(done + [arg.value], arg.rest, errors + arg.errors)
  }

  // ---------- The parser ----------

  /** The parser stands where the grammar function stopped, with its value and its errors. */
  ghost predicate Did<T>(p: Parser, value: T, r: Parsed<T>, errorsBefore: nat, depth: nat)
    reads p, p.diag
  {
    && p.Valid() && p.recursionDepth == depth
    && value == r.value && p.View() == r.rest && p.diag.errorCount == Capped(errorsBefore + r.errors)
  }

  method ParseFuncName(p: Parser) returns (name: seq<string>)
    requires p.Valid()
    modifies p, p.diag
    ensures Did(p, name, ParseName(old(p.View())), old(p.diag.errorCount), old(p.recursionDepth))
  {
    hide Parser.Valid, Parser.View;
    p.CurrentIsHead();
    var first := p.Expect(Identifier, "expected function name");
    name := [first.text];
    ghost var start, depth, errors := p.View(), p.recursionDepth, p.diag.errorCount;
    var more := p.LooksAt(Dot, Identifier);
    while more
      invariant p.Valid() && p.recursionDepth == depth && p.diag.errorCount == errors
      invariant more == (Head(p.View()) == Dot && Second(p.View()) == Identifier)
      invariant ParseNameMore(name, p.View()) == ParseNameMore([first.text], start)
      decreases |p.View()|
    {
      var _ := p.Advance();
      p.CurrentIsHead();
      var part := p.Advance();
      name := name + [part.text];
      more := p.LooksAt(Dot, Identifier);
    }
  }

  method ParseExpression(p: Parser) returns (e: Expr)
    requires p.Valid()
    modifies p, p.diag
    ensures Did(p, e, ParseBinary(old(p.View()), 1, old(p.recursionDepth)), old(p.diag.errorCount), old(p.recursionDepth))
    decreases |p.View()|, 4
  {
    e := ParseBinaryExpr(p, 1);
  }

  method ParseBinaryExpr(p: Parser, minPrec: nat) returns (lhs: Expr)
    requires p.Valid()
    modifies p, p.diag
    ensures Did(p, lhs, ParseBinary(old(p.View()), minPrec, old(p.recursionDepth)),
                old(p.diag.errorCount), old(p.recursionDepth))
    decreases |p.View()|, 3
  {
    hide ParseUnary, ParseOperators, Parser.Valid, Parser.View;
    ghost var s, depth, before := p.View(), p.recursionDepth, p.diag.errorCount;
    if p.recursionDepth >= MAX_RECURSION_DEPTH {
      p.Error("maximum recursion depth exceeded");
      return DUMMY;
    }
    p.recursionDepth := p.recursionDepth + 1;
    lhs := ParseUnaryExpr(p);
    lhs := ParseOperatorTail(p, lhs, minPrec, ParseUnary(s, depth + 1), before);
    p.recursionDepth := p.recursionDepth - 1;
  }

  /** The climbing loop, started behind an operand that `at` describes. */
  method ParseOperatorTail(p: Parser, first: Expr, minPrec: nat, ghost at: Parsed<Expr>, ghost before: nat)
    returns (lhs: Expr)
    requires Did(p, first, at, before, p.recursionDepth)
    modifies p, p.diag
    ensures Did(p, lhs, ParseOperators(at, minPrec, old(p.recursionDepth)), before, old(p.recursionDepth))
    decreases |p.View()|, 2
  {
    hide ParseOperator, Parser.Valid, Parser.View;
    lhs := first;
    ghost var done, depth := at, p.recursionDepth;
    p.CurrentIsHead();
    while IsBinaryOperator(p.current.kind) && Precedence(p.current.kind) >= minPrec
      invariant Did(p, lhs, done, before, depth) && |done.rest| <= |at.rest|
      invariant p.current.kind == Head(done.rest)
      invariant ParseOperators(done, minPrec, depth) == ParseOperators(at, minPrec, depth)
      decreases |p.View()|
    {
      lhs := ParseOperatorRhs(p, lhs, done, before);
      done := ParseOperator(done, depth);
      p.CurrentIsHead();
    }
  }

  method ParseOperatorRhs(p: Parser, first: Expr, ghost at: Parsed<Expr>, ghost before: nat) returns (lhs: Expr)
    requires Did(p, first, at, before, p.recursionDepth) && IsBinaryOperator(Head(at.rest))
    modifies p, p.diag
    ensures Did(p, lhs, ParseOperator(at, old(p.recursionDepth)), before, old(p.recursionDepth))
    decreases |p.View()|, 1
  {
    hide ParseBinary, Parser.Valid, Parser.View;
    p.CurrentIsHead();
    var op := p.current.kind;
    var _ := p.Advance();
    var rhs := ParseBinaryExpr(p, Precedence(op) + 1);
    lhs := Binary(op, first, rhs);
  }

  method ParseUnaryExpr(p: Parser) returns (e: Expr)
    requires p.Valid()
    modifies p, p.diag
    ensures Did(p, e, ParseUnary(old(p.View()), old(p.recursionDepth)), old(p.diag.errorCount), old(p.recursionDepth))
    decreases |p.View()|, 1
  {
    hide ParsePrimary, Parser.Valid, Parser.View;
    p.CurrentIsHead();
    if p.Check(Bang) || p.Check(Minus) {
      var op := p.current.kind;
      var _ := p.Advance();
      var operand := ParseUnaryExpr(p);
      e := Unary(op, operand);
    } else {
      e := ParsePrimaryExpr(p);
    }
  }

  method ParsePrimaryExpr(p: Parser) returns (e: Expr)
    requires p.Valid()
    modifies p, p.diag
    ensures Did(p, e, ParsePrimary(old(p.View()), old(p.recursionDepth)), old(p.diag.errorCount), old(p.recursionDepth))
    decreases |p.View()|, 0
  {
    hide ParseBinary, CallArgs, Parser.Valid, Parser.View;
    p.CurrentIsHead();
    if p.Check(LParen) {
      var _ := p.Advance();
      e := ParseExpression(p);
      var _ := p.Expect(RParen, "expected ')'");
    } else if p.Check(IntegerLiteral) {
      var tok := p.Advance();
      e := Literal(IntegerLiteral, tok.text);
    } else if p.Check(KW_true) {
      var _ := p.Advance();
      e := Literal(KW_true, "true");
    } else if p.Check(KW_false) {
      var _ := p.Advance();
      e := Literal(KW_false, "false");
    } else if p.Check(StringLiteral) {
      var tok := p.Advance();
      e := Literal(StringLiteral, tok.text);
    } else if p.Check(Identifier) {
      var name := ParseFuncName(p);
      p.CurrentIsHead();
      if p.Check(LParen) {
        var _ := p.Advance();
        var args := ParseCallArgs(p);
        var _ := p.Expect(RParen, "expected ')' after arguments");
        e := Call(name, args);
      } else {
        e := Ident(name);
      }
    } else {
      p.Error("expected expression");
      e := DUMMY;
    }
  }

  /** The arguments of a call, up to its closing parenthesis. */
  method ParseCallArgs(p: Parser) returns (args: seq<Expr>)
    requires p.Valid()
    modifies p, p.diag
    ensures Did(p, args, CallArgs(old(p.View()), old(p.recursionDepth)), old(p.diag.errorCount), old(p.recursionDepth))
    decreases |p.View()|, 5
  {
    hide ParseBinary, Parser.Valid, Parser.View;
    p.CurrentIsHead();
    args := [];
    if !p.Check(RParen) {
      ghost var s, depth, before := p.View(), p.recursionDepth, p.diag.errorCount;
      ghost var errors: nat := 0;
      var more := true;
      while more
        invariant p.Valid() && p.recursionDepth == depth && |p.View()| <= |s|
        invariant p.diag.errorCount == Capped(before + errors)
        invariant ParseArgs([], s, 0, depth) ==
                  if more then ParseArgs(args, p.View(), errors, depth) else Parsed(args, p.View(), errors)
        decreases |p.View()|, more
      {
        ghost var at := ParseBinary(p.View(), 1, depth);
        var arg := ParseExpression(p);
        args := args + [arg];
        errors := errors + at.errors;
        more := p.Match(Comma);
      }
    }
  }
}
