/** Written expressions. */
module ExprPrinter {
  // The ways to write an expression, with minimal parentheses or with more, and the proof that precedence
  // climbing accepts exactly these, as far as the recursion guard reaches, and gives back what was written.

  import opened Tokens
  import opened TokenBuffer
  import opened ExprParser
  import opened Spelling

  /** An expression as it stands on paper: with parentheses. */
  datatype Form =
    | Atom(kind: Kind, text: string)
    | Named(name: seq<string>)
    | Applied(name: seq<string>, args: seq<Form>)
    | Prefixed(op: Kind, operand: Form)
    | Infix(op: Kind, lhs: Form, rhs: Form)
    | Parens(inner: Form)

  // Operands of unary operators stand at the level above every binary operator.
  const OPERAND := 7

  predicate IsLiteral(kind: Kind, text: string) {
    kind == IntegerLiteral || kind == StringLiteral ||
    (kind == KW_true && text == "true") || (kind == KW_false && text == "false")
  }

  /** A form that may stand where operators below `level` need parentheses. */
  predicate Ok(f: Form, level: nat)
    decreases f, 1
  {
    match f
    case Atom(kind, text) => IsLiteral(kind, text)
    case Named(name) => name != []
    case Applied(name, args) => name != [] && AllOk(args)
    case Prefixed(op, operand) => IsUnaryOperator(op) && Ok(operand, OPERAND)
    case Infix(op, lhs, rhs) =>
      IsBinaryOperator(op) && Precedence(op) >= level && Ok(lhs, Precedence(op)) && Ok(rhs, Precedence(op) + 1)
    case Parens(inner) => Ok(inner, 1)
  }

  predicate AllOk(fs: seq<Form>)
    decreases fs, 0
  {
    fs == [] || (Ok(fs[0], 1) && AllOk(fs[1..]))
  }

  /** The tree without the parentheses. */
  function Tree(f: Form): Expr
    decreases f, 1
  {
    match f
    case Atom(kind, text) => Literal(kind, text)
    case Named(name) => Ident(name)
    case Applied(name, args) => Call(name, Trees(args))
    case Prefixed(op, operand) => Unary(op, Tree(operand))
    case Infix(op, lhs, rhs) => Binary(op, Tree(lhs), Tree(rhs))
    case Parens(inner) => Tree(inner)
  }

  function Trees(fs: seq<Form>): seq<Expr>
    decreases fs, 0
  {
    if fs == [] then [] else [Tree(fs[0])] + Trees(fs[1..])
  }

  function PutName(name: seq<string>): Stream
    requires name != []
  {
    [Lexeme(Identifier, name[0])] + PutNameMore(name[1..])
  }

  function PutNameMore(parts: seq<string>): Stream {
    if parts == [] then [] else Sym(Dot) + [Lexeme(Identifier, parts[0])] + PutNameMore(parts[1..])
  }

  /** The tokens of a form. */
  function Put(f: Form): Stream
    decreases f, 1
  {
    match f
    case Atom(kind, text) => [Lexeme(kind, text)]
    case Named(name) => if name == [] then [] else PutName(name)
    case Applied(name, args) => (if name == [] then [] else PutName(name)) + (Sym(LParen) + (PutArgs(args) + Sym(RParen)))
    case Prefixed(op, operand) => Sym(op) + Put(operand)
    case Infix(op, lhs, rhs) => Put(lhs) + (Sym(op) + Put(rhs))
    case Parens(inner) => Sym(LParen) + (Put(inner) + Sym(RParen))
  }

  function PutArgs(fs: seq<Form>): Stream
    decreases fs, 0
  {
    if fs == [] then []
    else if |fs| == 1 then Put(fs[0])
    else Put(fs[0]) + (Sym(Comma) + PutArgs(fs[1..]))
  }

  function Max(a: nat, b: nat): nat { if a < b then b else a }

  /** How many guarded calls deep the parser goes below the one that reads `f`. */
  function Depth(f: Form): nat
    decreases f, 1
  {
    match f
    case Atom(_, _) => 0
    case Named(_) => 0
    case Applied(_, args) => ArgDepth(args)
    case Prefixed(_, operand) => Depth(operand)
    case Infix(_, lhs, rhs) => Max(Depth(lhs), 1 + Depth(rhs))
    case Parens(inner) => 1 + Depth(inner)
  }

  function ArgDepth(fs: seq<Form>): nat
    decreases fs, 0
  {
    if fs == [] then 0 else Max(1 + Depth(fs[0]), ArgDepth(fs[1..]))
  }

  /** A name at the end would go on with another part or become a call. */
  predicate Extends(f: Form, rest: Stream) {
    match f
    case Named(_) => Head(rest) == LParen || (Head(rest) == Dot && Second(rest) == Identifier)
    case Prefixed(_, operand) => Extends(operand, rest)
    case Infix(_, _, rhs) => Extends(rhs, rest)
    case _ => false
  }

  // ---------- What is written is read ----------

  lemma {:induction false} NameMoreParses(done: seq<string>, parts: seq<string>, rest: Stream)
    requires !(Head(rest) == Dot && Second(rest) == Identifier)
    ensures ParseNameMore(done, PutNameMore(parts) + rest) == (done + parts, rest)
    decreases |parts|
  {
    if parts == [] {
      assert PutNameMore(parts) + rest == rest && done + parts == done;
    } else {
      var more := PutNameMore(parts[1..]);
      assert PutNameMore(parts) == [Lexeme(Dot, "."), Lexeme(Identifier, parts[0])] + more;
      TwoAhead(PutNameMore(parts), Lexeme(Dot, "."), Lexeme(Identifier, parts[0]), more, rest);
      NameMoreParses(done + [parts[0]], parts[1..], rest);
      assert done + [parts[0]] + parts[1..] == done + parts;
    }
  }

  lemma NameParses(name: seq<string>, rest: Stream)
    requires name != [] && !(Head(rest) == Dot && Second(rest) == Identifier)
    ensures ParseName(PutName(name) + rest) == Parsed(name, rest, 0)
  {
    var s, more := PutName(name) + rest, PutNameMore(name[1..]) + rest;
    assert s == [Lexeme(Identifier, name[0])] + more;
    assert Tail(s) == more;
    NameMoreParses([name[0]], name[1..], rest);
    assert [name[0]] + name[1..] == name;
  }

  lemma {:induction false} ErrorsGrow(lhs: Parsed<Expr>, minPrec: nat, depth: nat)
    ensures ParseOperators(lhs, minPrec, depth).errors >= lhs.errors
    decreases |lhs.rest|
  {
    if Climbs(lhs.rest, minPrec) {
      ErrorsGrow(ParseOperator(lhs, depth), minPrec, depth);
    }
  }

  /** The call that reads a form and then climbs: it ends up climbing from its tree itself when the
      guard holds out, and reports an error when it does not. */
  ghost predicate ReadsOperand(f: Form, s: Stream, rest: Stream, minPrec: nat, depth: nat) {
    var r := ParseOperators(ParseUnary(s, depth), minPrec, depth);
    if depth + Depth(f) <= MAX_RECURSION_DEPTH
    then r == ParseOperators(Parsed(Tree(f), rest, 0), minPrec, depth)
    else r.errors > 0
  }

  /** An operand that no operator outside it can be taken into. */
  ghost predicate ReadsUnary(f: Form, s: Stream, rest: Stream, depth: nat) {
    var r := ParseUnary(s, depth);
    if depth + Depth(f) <= MAX_RECURSION_DEPTH then r == Parsed(Tree(f), rest, 0) else r.errors > 0
  }

  lemma ParensRead(f: Form, rest: Stream, depth: nat)
    requires f.Parens?
    requires var close := Sym(RParen) + rest; ReadsWhole(f.inner, Put(f.inner) + close, close, depth)
    ensures ReadsUnary(f, Put(f) + rest, rest, depth)
  {
    var close := Sym(RParen) + rest;
    var s := Sym(LParen) + (Put(f.inner) + close);
    Reassociate(Sym(LParen), Put(f.inner), Sym(RParen), rest);
    SymHead(LParen, Put(f.inner) + close);
    SymHead(RParen, rest);
    assert ParseUnary(s, depth) == ParsePrimary(s, depth);
    var body := ParseBinary(Put(f.inner) + close, 1, depth);
    assert ParsePrimary(s, depth).errors == body.errors + Expect(body.rest, RParen).1;
  }

  /** `lhs op rhs`, read from an operand on, given that both sides read as they should. */
  lemma InfixReads(f: Form, rest: Stream, minPrec: nat, depth: nat)
    requires f.Infix? && IsBinaryOperator(f.op) && minPrec <= Precedence(f.op)
    requires Precedence(Head(rest)) <= Precedence(f.op)
    requires var more := Sym(f.op) + (Put(f.rhs) + rest); ReadsOperand(f.lhs, Put(f.lhs) + more, more, minPrec, depth)
    requires depth < MAX_RECURSION_DEPTH ==>
             ReadsOperand(f.rhs, Put(f.rhs) + rest, rest, Precedence(f.op) + 1, depth + 1)
    ensures ReadsOperand(f, Put(f.lhs) + (Sym(f.op) + (Put(f.rhs) + rest)), rest, minPrec, depth)
  {
    var q := Precedence(f.op);
    var right := Put(f.rhs) + rest;
    var more := Sym(f.op) + right;
    SymHead(f.op, right);
    var lhs := Parsed(Tree(f.lhs), more, 0);
    var next := ParseOperator(lhs, depth);
    var rhs := ParseBinary(right, q + 1, depth);
    assert next == Parsed(Binary(f.op, Tree(f.lhs), rhs.value), rhs.rest, rhs.errors);
    if depth < MAX_RECURSION_DEPTH {
      assert rhs == ParseOperators(ParseUnary(right, depth + 1), q + 1, depth + 1);
      assert !Climbs(rest, q + 1);
    }
    assert ParseOperators(lhs, minPrec, depth) == ParseOperators(next, minPrec, depth);
    ErrorsGrow(next, minPrec, depth);
  }

  lemma {:induction false} ArgErrorsGrow(done: seq<Expr>, s: Stream, errors: nat, depth: nat)
    ensures ParseArgs(done, s, errors, depth).errors >= errors
    decreases |s|
  {
    var arg := ParseBinary(s, 1, depth);
    if Head(arg.rest) == Comma {
      ArgErrorsGrow(done + [arg.value], Tail(arg.rest), errors + arg.errors, depth);
    }
  }

  /** A whole expression read by the guarded entry point. */
  ghost predicate ReadsWhole(f: Form, s: Stream, rest: Stream, depth: nat) {
    var r := ParseBinary(s, 1, depth);
    if depth + 1 + Depth(f) <= MAX_RECURSION_DEPTH then r == Parsed(Tree(f), rest, 0) else r.errors > 0
  }

  lemma {:induction false} WholeReads(f: Form, rest: Stream, depth: nat)
    requires depth <= MAX_RECURSION_DEPTH && Ok(f, 1) && !Extends(f, rest) && !IsBinaryOperator(Head(rest))
    ensures ReadsWhole(f, Put(f) + rest, rest, depth)
    decreases f, 3
  {
    if depth < MAX_RECURSION_DEPTH {
      OperandReads(f, 1, rest, 1, depth + 1);
      assert !Climbs(rest, 1);
    }
  }

  /** One argument read, and what the comma behind it leads to. */
  lemma ArgReads(done: seq<Expr>, arg: Form, s: Stream, after: Stream, errors: nat, depth: nat)
    requires ReadsWhole(arg, s, after, depth)
    ensures var r := ParseArgs(done, s, errors, depth);
            if depth + 1 + Depth(arg) <= MAX_RECURSION_DEPTH
            then r == if Head(after) == Comma then ParseArgs(done + [Tree(arg)], Tail(after), errors, depth)
                      else Parsed(done + [Tree(arg)], after, errors)
            else r.errors > 0
  {
    var got := ParseBinary(s, 1, depth);
    if Head(got.rest) == Comma {
      ArgErrorsGrow(done + [got.value], Tail(got.rest), errors + got.errors, depth);
    }
  }

  ghost predicate ReadsArgs(done: seq<Expr>, args: seq<Form>, s: Stream, close: Stream, errors: nat, depth: nat) {
    var r := ParseArgs(done, s, errors, depth);
    if depth + ArgDepth(args) <= MAX_RECURSION_DEPTH then r == Parsed(done + Trees(args), close, errors)
    else r.errors > 0
  }

  lemma LastArgReads(done: seq<Expr>, arg: Form, s: Stream, close: Stream, errors: nat, depth: nat)
    requires Head(close) == RParen && ReadsWhole(arg, s, close, depth)
    ensures ReadsArgs(done, [arg], s, close, errors, depth)
  {
    ArgReads(done, arg, s, close, errors, depth);
    assert [arg][1..] == [];
    assert ArgDepth([arg]) == 1 + Depth(arg) && Trees([arg]) == [Tree(arg)];
  }

  lemma NextArgReads(done: seq<Expr>, args: seq<Form>, s: Stream, more: Stream, close: Stream, errors: nat, depth: nat)
    requires |args| > 1 && ReadsWhole(args[0], s, Sym(Comma) + more, depth)
    requires ReadsArgs(done + [Tree(args[0])], args[1..], more, close, errors, depth)
    ensures ReadsArgs(done, args, s, close, errors, depth)
  {
    SymHead(Comma, more);
    ArgReads(done, args[0], s, Sym(Comma) + more, errors, depth);
    assert done + Trees(args) == done + [Tree(args[0])] + Trees(args[1..]);
  }

  lemma {:induction false} ArgsRead(done: seq<Expr>, args: seq<Form>, rest: Stream, errors: nat, depth: nat)
    requires depth <= MAX_RECURSION_DEPTH && args != [] && AllOk(args)
    ensures var close := Sym(RParen) + rest;
            ReadsArgs(done, args, PutArgs(args) + close, close, errors, depth)
    decreases args, 0
  {
    var close := Sym(RParen) + rest;
    var s := PutArgs(args) + close;
    SymHead(RParen, rest);
    NothingExtends(args[0], close);
    if |args| == 1 {
      WholeReads(args[0], close, depth);
      LastArgReads(done, args[0], s, close, errors, depth);
      assert args == [args[0]];
    } else {
      var more := PutArgs(args[1..]) + close;
      Reassociate(Put(args[0]), Sym(Comma), PutArgs(args[1..]), close);
      SymHead(Comma, more);
      NothingExtends(args[0], Sym(Comma) + more);
      WholeReads(args[0], Sym(Comma) + more, depth);
      ArgsRead(done + [Tree(args[0])], args[1..], rest, errors, depth);
      NextArgReads(done, args, s, more, close, errors, depth);
    }
  }

  lemma {:induction false} NothingExtends(f: Form, rest: Stream)
    requires Head(rest) != Dot && Head(rest) != LParen
    ensures !Extends(f, rest)
    decreases f
  {
    if f.Prefixed? {
      NothingExtends(f.operand, rest);
    } else if f.Infix? {
      NothingExtends(f.rhs, rest);
    }
  }

  /** A call around whatever its argument list reads as. */
  lemma CallShape(name: seq<string>, inside: Stream, depth: nat)
    requires name != []
    ensures var args := CallArgs(inside, depth);
            var after := Expect(args.rest, RParen);
            ParseUnary(PutName(name) + (Sym(LParen) + inside), depth) ==
            Parsed(Call(name, args.value), after.0, args.errors + after.1)
  {
    var s := PutName(name) + (Sym(LParen) + inside);
    SymHead(LParen, inside);
    NameParses(name, Sym(LParen) + inside);
    assert s[0] == Lexeme(Identifier, name[0]);
    assert ParseUnary(s, depth) == ParsePrimary(s, depth);
  }

  lemma {:induction false} CallReads(f: Form, rest: Stream, depth: nat)
    requires depth <= MAX_RECURSION_DEPTH && Ok(f, OPERAND) && f.Applied?
    ensures ReadsUnary(f, Put(f) + rest, rest, depth)
    decreases f, 0
  {
    var close := Sym(RParen) + rest;
    var inside := PutArgs(f.args) + close;
    Reassociate(PutName(f.name), Sym(LParen), PutArgs(f.args) + Sym(RParen), rest);
    Assoc(PutArgs(f.args), Sym(RParen), rest);
    assert Put(f) + rest == PutName(f.name) + (Sym(LParen) + inside);
    SymHead(RParen, rest);
    CallShape(f.name, inside, depth);
    if f.args == [] {
      assert inside == close;
      assert CallArgs(inside, depth) == Parsed([], close, 0);
    } else {
      ArgsRead([], f.args, rest, 0, depth);
      ArgsStart(f.args, close);
      assert [] + Trees(f.args) == Trees(f.args);
    }
  }

  /** An argument list never starts with the closing parenthesis. */
  lemma {:induction false} ArgsStart(args: seq<Form>, close: Stream)
    requires args != [] && AllOk(args)
    ensures Head(PutArgs(args) + close) != RParen
  {
    StartsOperand(args[0], 1);
    var s := PutArgs(args) + close;
    assert s[0] == Put(args[0])[0];
  }

  lemma {:induction false} StartsOperand(f: Form, level: nat)
    requires Ok(f, level)
    ensures Put(f) != [] && Put(f)[0].kind != RParen
    decreases f
  {
    if f.Infix? {
      StartsOperand(f.lhs, Precedence(f.op));
    }
  }

  lemma AtomReads(f: Form, rest: Stream, depth: nat)
    requires Ok(f, OPERAND) && f.Atom?
    ensures ParseUnary(Put(f) + rest, depth) == Parsed(Tree(f), rest, 0)
  {
    var s := [Lexeme(f.kind, f.text)] + rest;
    assert Head(s) == f.kind && HeadText(s) == f.text && Tail(s) == rest;
    assert ParseUnary(s, depth) == ParsePrimary(s, depth);
  }

  lemma NamedReads(f: Form, rest: Stream, depth: nat)
    requires Ok(f, OPERAND) && f.Named? && !Extends(f, rest)
    ensures ParseUnary(Put(f) + rest, depth) == Parsed(Tree(f), rest, 0)
  {
    var s := PutName(f.name) + rest;
    NameParses(f.name, rest);
    assert s[0] == Lexeme(Identifier, f.name[0]);
    assert ParseUnary(s, depth) == ParsePrimary(s, depth);
  }

  lemma PrefixedReads(f: Form, rest: Stream, depth: nat)
    requires Ok(f, OPERAND) && f.Prefixed? && ReadsOperand(f.operand, Put(f.operand) + rest, rest, OPERAND, depth)
    ensures ReadsUnary(f, Put(f) + rest, rest, depth)
  {
    var inner := Put(f.operand) + rest;
    Assoc(Sym(f.op), Put(f.operand), rest);
    SymHead(f.op, inner);
    assert ParseOperators(ParseUnary(inner, depth), OPERAND, depth) == ParseUnary(inner, depth);
  }

  /** The climbing invariant: reading what stands at `level`, inside a call that climbs from any lower
      `minPrec`, is the same as having its tree already and climbing on. */
  lemma {:induction false} OperandReads(f: Form, level: nat, rest: Stream, minPrec: nat, depth: nat)
    requires depth <= MAX_RECURSION_DEPTH && Ok(f, level) && 1 <= minPrec <= level <= OPERAND
    requires !Extends(f, rest) && Precedence(Head(rest)) <= level
    ensures ReadsOperand(f, Put(f) + rest, rest, minPrec, depth)
    decreases f, 2
  {
    if f.Infix? {
      InfixOperandReads(f, level, rest, minPrec, depth);
    } else {
      UnaryReads(f, rest, depth);
      ErrorsGrow(ParseUnary(Put(f) + rest, depth), minPrec, depth);
    }
  }

  lemma {:induction false} UnaryReads(f: Form, rest: Stream, depth: nat)
    requires depth <= MAX_RECURSION_DEPTH && Ok(f, OPERAND) && !f.Infix? && !Extends(f, rest)
    requires Precedence(Head(rest)) <= OPERAND
    ensures ReadsUnary(f, Put(f) + rest, rest, depth)
    decreases f, 1
  {
    match f
    case Atom(_, _) => AtomReads(f, rest, depth);
    case Named(_) => NamedReads(f, rest, depth);
    case Applied(_, _) => CallReads(f, rest, depth);
    case Prefixed(_, operand) =>
      OperandReads(operand, OPERAND, rest, OPERAND, depth);
      PrefixedReads(f, rest, depth);
    case Parens(inner) =>
      SymHead(RParen, rest);
      NothingExtends(inner, Sym(RParen) + rest);
      WholeReads(inner, Sym(RParen) + rest, depth);
      ParensRead(f, rest, depth);
  }

  lemma {:induction false} InfixOperandReads(f: Form, level: nat, rest: Stream, minPrec: nat, depth: nat)
    requires depth <= MAX_RECURSION_DEPTH && Ok(f, level) && f.Infix? && 1 <= minPrec <= level <= OPERAND
    requires !Extends(f, rest) && Precedence(Head(rest)) <= level
    ensures ReadsOperand(f, Put(f) + rest, rest, minPrec, depth)
    decreases f, 0
  {
    var q := Precedence(f.op);
    var more := Sym(f.op) + (Put(f.rhs) + rest);
    Reassociate(Put(f.lhs), Sym(f.op), Put(f.rhs), rest);
    SymHead(f.op, Put(f.rhs) + rest);
    NothingExtends(f.lhs, more);
    OperandReads(f.lhs, q, more, minPrec, depth);
    if depth < MAX_RECURSION_DEPTH {
      OperandReads(f.rhs, q + 1, rest, q + 1, depth + 1);
    }
    InfixReads(f, rest, minPrec, depth);
  }

  // ---------- What is accepted was written ----------

  /** A form that stands in front of what is left, with the tree that was read. */
  ghost predicate Written(f: Form, level: nat, s: Stream, r: Parsed<Expr>, depth: nat) {
    && Ok(f, level) && s == Put(f) + r.rest && Tree(f) == r.value
    && depth + Depth(f) <= MAX_RECURSION_DEPTH && !Extends(f, r.rest) && WellSpelled(r.rest)
  }

  lemma {:induction false} NameMoreWasWritten(done: seq<string>, s: Stream)
    requires WellSpelled(s)
    ensures var r := ParseNameMore(done, s);
            && done <= r.0 && s == PutNameMore(r.0[|done|..]) + r.1
            && WellSpelled(r.1) && !(Head(r.1) == Dot && Second(r.1) == Identifier)
    decreases |s|
  {
    hide WellSpelled;
    if Head(s) == Dot && Second(s) == Identifier {
      SpeltHead(s);
      TailSpelled(Tail(s));
      var name := HeadText(Tail(s));
      var r := ParseNameMore(done + [name], Tail(Tail(s)));
      NameMoreWasWritten(done + [name], Tail(Tail(s)));
      var parts := r.0[|done|..];
      assert parts == [name] + r.0[|done| + 1..];
      FirstTwo(s);
      assert PutNameMore(parts) == Sym(Dot) + [Lexeme(Identifier, name)] + PutNameMore(parts[1..]);
      Assoc(Sym(Dot) + [Lexeme(Identifier, name)], PutNameMore(parts[1..]), r.1);
    } else {
      assert s == PutNameMore([]) + s;
    }
  }

  lemma FirstTwo(s: Stream)
    requires |s| >= 2
    ensures s == ([s[0]] + [s[1]]) + Tail(Tail(s))
  {
  }

  lemma NameWasWritten(s: Stream)
    requires WellSpelled(s) && Head(s) == Identifier
    ensures var r := ParseName(s);
            && r.value != [] && s == PutName(r.value) + r.rest
            && WellSpelled(r.rest) && !(Head(r.rest) == Dot && Second(r.rest) == Identifier)
  {
    hide WellSpelled;
    var first, r := HeadText(s), ParseName(s);
    TailSpelled(s);
    NameMoreWasWritten([first], Tail(s));
    assert s == [Lexeme(Identifier, first)] + Tail(s);
    assert PutName(r.value) == [Lexeme(Identifier, first)] + PutNameMore(r.value[1..]);
    Assoc([Lexeme(Identifier, first)], PutNameMore(r.value[1..]), r.rest);
  }

  lemma {:induction false} Lowers(f: Form, level: nat, lower: nat)
    requires Ok(f, level) && lower <= level
    ensures Ok(f, lower)
  {
  }

  lemma {:induction false} UnaryWasWritten(s: Stream, depth: nat) returns (f: Form)
    requires WellSpelled(s) && depth <= MAX_RECURSION_DEPTH && ParseUnary(s, depth).errors == 0
    ensures Written(f, OPERAND, s, ParseUnary(s, depth), depth)
    decreases |s|, 1
  {
    hide WellSpelled;
    if IsUnaryOperator(Head(s)) {
      SpeltHead(s);
      var operand := UnaryWasWritten(Tail(s), depth);
      f := Prefixed(Head(s), operand);
      Assoc(Sym(Head(s)), Put(operand), ParseUnary(s, depth).rest);
    } else {
      assert ParseUnary(s, depth) == ParsePrimary(s, depth);
      f := PrimaryWasWritten(s, depth);
    }
  }

  lemma {:induction false} PrimaryWasWritten(s: Stream, depth: nat) returns (f: Form)
    requires WellSpelled(s) && depth <= MAX_RECURSION_DEPTH && ParsePrimary(s, depth).errors == 0
    ensures Written(f, OPERAND, s, ParsePrimary(s, depth), depth)
    decreases |s|, 0
  {
    hide WellSpelled;
    if Head(s) == LParen {
      f := ParensWereWritten(s, depth);
    } else if Head(s) == Identifier {
      f := NameOrCallWasWritten(s, depth);
    } else {
      var r := ParsePrimary(s, depth);
      f := Atom(r.value.kind, r.value.text);
      assert s == [s[0]] + Tail(s);
      TailSpelled(s);
      HeadSpelt(s);
    }
  }

  lemma {:induction false} ParensWereWritten(s: Stream, depth: nat) returns (f: Form)
    requires WellSpelled(s) && depth <= MAX_RECURSION_DEPTH && Head(s) == LParen && ParsePrimary(s, depth).errors == 0
    ensures Written(f, OPERAND, s, ParsePrimary(s, depth), depth)
    decreases |s|, 0, 0
  {
    hide WellSpelled;
    SpeltHead(s);
    var body := ParseBinary(Tail(s), 1, depth);
    var inner := WholeWasWritten(Tail(s), 1, depth);
    SpeltHead(body.rest);
    f := Parens(inner);
    Reassociate(Sym(LParen), Put(inner), Sym(RParen), Tail(body.rest));
  }

  lemma {:induction false} NameOrCallWasWritten(s: Stream, depth: nat) returns (f: Form)
    requires WellSpelled(s) && depth <= MAX_RECURSION_DEPTH && Head(s) == Identifier && ParsePrimary(s, depth).errors == 0
    ensures Written(f, OPERAND, s, ParsePrimary(s, depth), depth)
    decreases |s|, 0, 0
  {
    hide WellSpelled, CallArgs, PutName, PutArgs;
    var name := ParseName(s);
    NameWasWritten(s);
    if Head(name.rest) == LParen {
      SpeltHead(name.rest);
      var args := CallArgsWereWritten(Tail(name.rest), depth);
      var list := CallArgs(Tail(name.rest), depth);
      SpeltHead(list.rest);
      f := Applied(name.value, args);
      CallWasWritten(name.value, args, Tail(list.rest));
    } else {
      f := Named(name.value);
    }
  }

  lemma CallWasWritten(name: seq<string>, args: seq<Form>, rest: Stream)
    requires name != []
    ensures PutName(name) + (Sym(LParen) + (PutArgs(args) + (Sym(RParen) + rest))) == Put(Applied(name, args)) + rest
  {
    Reassociate(PutName(name), Sym(LParen), PutArgs(args) + Sym(RParen), rest);
    Assoc(PutArgs(args), Sym(RParen), rest);
  }

  lemma {:induction false} CallArgsWereWritten(s: Stream, depth: nat) returns (args: seq<Form>)
    requires WellSpelled(s) && depth <= MAX_RECURSION_DEPTH && CallArgs(s, depth).errors == 0
    ensures var r := CallArgs(s, depth);
            && AllOk(args) && Trees(args) == r.value && s == PutArgs(args) + r.rest
            && depth + ArgDepth(args) <= MAX_RECURSION_DEPTH && WellSpelled(r.rest)
    decreases |s|, 4
  {
    hide WellSpelled;
    if Head(s) == RParen {
      args := [];
      assert s == PutArgs([]) + s;
    } else {
      args := ArgsWereWritten([], s, 0, depth);
      assert [] + Trees(args) == Trees(args);
    }
  }

  lemma {:induction false} ArgsWereWritten(done: seq<Expr>, s: Stream, errors: nat, depth: nat) returns (args: seq<Form>)
    requires WellSpelled(s) && depth <= MAX_RECURSION_DEPTH && ParseArgs(done, s, errors, depth).errors == 0
    ensures var r := ParseArgs(done, s, errors, depth);
            && args != [] && AllOk(args) && done + Trees(args) == r.value && s == PutArgs(args) + r.rest
            && depth + ArgDepth(args) <= MAX_RECURSION_DEPTH && WellSpelled(r.rest)
    decreases |s|, 3
  {
    hide WellSpelled;
    var arg := ParseBinary(s, 1, depth);
    if Head(arg.rest) == Comma {
      ArgErrorsGrow(done + [arg.value], Tail(arg.rest), errors + arg.errors, depth);
    }
    var first := WholeWasWritten(s, 1, depth);
    args := [first];
    if Head(arg.rest) == Comma {
      SpeltHead(arg.rest);
      var more := ArgsWereWritten(done + [arg.value], Tail(arg.rest), errors + arg.errors, depth);
      args := [first] + more;
      OneMoreArg(first, more, ParseArgs(done, s, errors, depth).rest);
      Regroup(done, arg.value, Trees(more));
    } else {
      OnlyArg(first);
    }
  }

  lemma Regroup(a: seq<Expr>, e: Expr, b: seq<Expr>)
    ensures a + ([e] + b) == a + [e] + b
  {
  }

  lemma OnlyArg(f: Form)
    requires Ok(f, 1)
    ensures AllOk([f]) && Trees([f]) == [Tree(f)] && PutArgs([f]) == Put(f) && ArgDepth([f]) == 1 + Depth(f)
  {
    assert [f][1..] == [];
  }

  lemma OneMoreArg(f: Form, more: seq<Form>, rest: Stream)
    requires Ok(f, 1) && AllOk(more) && more != []
    ensures var args := [f] + more;
            && AllOk(args) && Trees(args) == [Tree(f)] + Trees(more) && ArgDepth(args) == Max(1 + Depth(f), ArgDepth(more))
            && PutArgs(args) + rest == Put(f) + (Sym(Comma) + (PutArgs(more) + rest))
  {
    assert ([f] + more)[1..] == more;
    Reassociate(Put(f), Sym(Comma), PutArgs(more), rest);
  }

  lemma {:induction false} WholeWasWritten(s: Stream, minPrec: nat, depth: nat) returns (f: Form)
    requires WellSpelled(s) && depth <= MAX_RECURSION_DEPTH && minPrec <= OPERAND && ParseBinary(s, minPrec, depth).errors == 0
    ensures depth < MAX_RECURSION_DEPTH && Written(f, minPrec, s, ParseBinary(s, minPrec, depth), depth + 1)
    ensures !Climbs(ParseBinary(s, minPrec, depth).rest, minPrec)
    decreases |s|, 2
  {
    hide WellSpelled;
    var lhs := ParseUnary(s, depth + 1);
    ErrorsGrow(lhs, minPrec, depth + 1);
    var first := UnaryWasWritten(s, depth + 1);
    Lowers(first, OPERAND, minPrec);
    if Climbs(lhs.rest, minPrec) { Lowers(first, OPERAND, Precedence(Head(lhs.rest))); }
    f := OperatorsWereWritten(first, s, lhs, minPrec, depth + 1);
  }

  lemma {:induction false} OperatorsWereWritten(g: Form, s: Stream, lhs: Parsed<Expr>, minPrec: nat, depth: nat) returns (f: Form)
    requires depth <= MAX_RECURSION_DEPTH && minPrec <= OPERAND && Written(g, minPrec, s, lhs, depth) && |lhs.rest| <= |s|
    requires Climbs(lhs.rest, minPrec) ==> Ok(g, Precedence(Head(lhs.rest)))
    requires ParseOperators(lhs, minPrec, depth).errors == 0
    ensures var r := ParseOperators(lhs, minPrec, depth); Written(f, minPrec, s, r, depth) && !Climbs(r.rest, minPrec)
    decreases |lhs.rest|, 1
  {
    hide WellSpelled;
    if Climbs(lhs.rest, minPrec) {
      var next := ParseOperator(lhs, depth);
      ErrorsGrow(next, minPrec, depth);
      var g' := OperatorWasWritten(g, s, lhs, minPrec, depth);
      if Climbs(next.rest, minPrec) { Lowers(g', Precedence(g'.op), Precedence(Head(next.rest))); }
      f := OperatorsWereWritten(g', s, next, minPrec, depth);
    } else {
      f := g;
    }
  }

  lemma {:induction false} OperatorWasWritten(g: Form, s: Stream, lhs: Parsed<Expr>, minPrec: nat, depth: nat) returns (f: Form)
    requires depth <= MAX_RECURSION_DEPTH && Written(g, minPrec, s, lhs, depth) && Climbs(lhs.rest, minPrec)
    requires Ok(g, Precedence(Head(lhs.rest))) && ParseOperator(lhs, depth).errors == 0
    ensures var r := ParseOperator(lhs, depth);
            && Written(f, minPrec, s, r, depth) && f.Infix? && Ok(f, Precedence(f.op))
            && Precedence(Head(r.rest)) <= Precedence(f.op)
    decreases |lhs.rest|, 0
  {
    hide WellSpelled;
    var op := Head(lhs.rest);
    SpeltHead(lhs.rest);
    var rhs := WholeWasWritten(Tail(lhs.rest), Precedence(op) + 1, depth);
    f := Infix(op, g, rhs);
    Reassociate(Put(g), Sym(op), Put(rhs), ParseOperator(lhs, depth).rest);
  }

  // ---------- Minimal parentheses ----------

  /** Trees the parser can produce: names are not empty and every operator is one. */
  predicate Printable(e: Expr)
    decreases e, 1
  {
    match e
    case Literal(kind, text) => IsLiteral(kind, text)
    case Ident(name) => name != []
    case Call(name, args) => name != [] && AllPrintable(args)
    case Unary(op, operand) => IsUnaryOperator(op) && Printable(operand)
    case Binary(op, lhs, rhs) => IsBinaryOperator(op) && Printable(lhs) && Printable(rhs)
  }

  predicate AllPrintable(es: seq<Expr>)
    decreases es, 0
  {
    es == [] || (Printable(es[0]) && AllPrintable(es[1..]))
  }

  /** `e` where operators below `level` need parentheses, with no others. */
  function Minimal(e: Expr, level: nat): Form
    requires Printable(e)
    decreases e, 1
  {
    match e
    case Literal(kind, text) => Atom(kind, text)
    case Ident(name) => Named(name)
    case Call(name, args) => Applied(name, Minimals(args))
    case Unary(op, operand) => Prefixed(op, Minimal(operand, OPERAND))
    case Binary(op, lhs, rhs) =>
      var bare := Infix(op, Minimal(lhs, Precedence(op)), Minimal(rhs, Precedence(op) + 1));
      if Precedence(op) >= level then bare else Parens(bare)
  }

  function Minimals(es: seq<Expr>): seq<Form>
    requires AllPrintable(es)
    decreases es, 0
  {
    if es == [] then [] else [Minimal(es[0], 1)] + Minimals(es[1..])
  }

  lemma {:induction false} MinimalIsOk(e: Expr, level: nat)
    requires Printable(e) && level <= OPERAND
    ensures Ok(Minimal(e, level), level) && Tree(Minimal(e, level)) == e
    decreases e, 1
  {
    match e
    case Literal(_, _) =>
    case Ident(_) =>
    case Call(_, args) => MinimalsAreOk(args);
    case Unary(_, operand) => MinimalIsOk(operand, OPERAND);
    case Binary(op, lhs, rhs) =>
      MinimalIsOk(lhs, Precedence(op));
      MinimalIsOk(rhs, Precedence(op) + 1);
      Lowers(Infix(op, Minimal(lhs, Precedence(op)), Minimal(rhs, Precedence(op) + 1)), Precedence(op), 1);
  }

  lemma {:induction false} MinimalsAreOk(es: seq<Expr>)
    requires AllPrintable(es)
    ensures AllOk(Minimals(es)) && Trees(Minimals(es)) == es
    decreases es, 0
  {
    if es != [] {
      MinimalIsOk(es[0], 1);
      MinimalsAreOk(es[1..]);
    }
  }

  function Print(e: Expr, level: nat): Stream
    requires Printable(e)
  {
    Put(Minimal(e, level))
  }

  function Nesting(e: Expr, level: nat): nat
    requires Printable(e)
  {
    Depth(Minimal(e, level))
  }

  // ---------- Main results ----------

  /** What the parser accepts, reads and leaves: exactly the written forms within the guard, with the
      trees they stand for, in front of anything that cannot belong to them. */
  lemma AcceptsExactlyWritten(s: Stream, e: Expr, rest: Stream, depth: nat)
    requires WellSpelled(s)
    ensures ParseBinary(s, 1, depth) == Parsed(e, rest, 0) <==>
            exists f :: Ok(f, 1) && Tree(f) == e && s == Put(f) + rest && depth + 1 + Depth(f) <= MAX_RECURSION_DEPTH &&
                        !Extends(f, rest) && !IsBinaryOperator(Head(rest))
  {
    if ParseBinary(s, 1, depth) == Parsed(e, rest, 0) && depth <= MAX_RECURSION_DEPTH {
      var f := WholeWasWritten(s, 1, depth);
      assert Ok(f, 1) && Tree(f) == e;
    }
    forall f | Ok(f, 1) && Tree(f) == e && s == Put(f) + rest && depth + 1 + Depth(f) <= MAX_RECURSION_DEPTH &&
               !Extends(f, rest) && !IsBinaryOperator(Head(rest))
      ensures ParseBinary(s, 1, depth) == Parsed(e, rest, 0)
    {
      WholeReads(f, rest, depth);
    }
  }

  /** A form too deep for the guard is reported. */
  lemma DeepFormsFail(f: Form, rest: Stream, depth: nat)
    requires depth <= MAX_RECURSION_DEPTH && Ok(f, 1) && !Extends(f, rest) && !IsBinaryOperator(Head(rest))
    ensures ParseBinary(Put(f) + rest, 1, depth).errors == 0 <==> depth + 1 + Depth(f) <= MAX_RECURSION_DEPTH
  {
    WholeReads(f, rest, depth);
  }

  /** Printing with minimal parentheses and parsing gives the tree back and consumes exactly its tokens,
      if and only if the tree fits under the recursion guard; a deeper one is reported. */
  lemma PrintedExpressionsParse(e: Expr, rest: Stream, depth: nat)
    requires depth <= MAX_RECURSION_DEPTH && Printable(e) && !Extends(Minimal(e, 1), rest) && !IsBinaryOperator(Head(rest))
    ensures var r := ParseBinary(Print(e, 1) + rest, 1, depth);
            && (r == Parsed(e, rest, 0) <==> depth + 1 + Nesting(e, 1) <= MAX_RECURSION_DEPTH)
            && (r.errors == 0 <==> depth + 1 + Nesting(e, 1) <= MAX_RECURSION_DEPTH)
  {
    MinimalIsOk(e, 1);
    WholeReads(Minimal(e, 1), rest, depth);
  }

  /** No two trees within the guard can be written alike: what is written decides associativity and
      precedence. */
  lemma WritingIsUnambiguous(f: Form, g: Form)
    requires Ok(f, 1) && Ok(g, 1) && Put(f) == Put(g)
    requires 1 + Depth(f) <= MAX_RECURSION_DEPTH && 1 + Depth(g) <= MAX_RECURSION_DEPTH
    ensures Tree(f) == Tree(g)
  {
    NothingExtends(f, []);
    NothingExtends(g, []);
    WholeReads(f, [], 0);
    WholeReads(g, [], 0);
  }
}
