/** Declarations written out: every kind of declaration as it stands in a file, token by token, with whatever names,
    types, expressions and edges in it and whatever behind it. The grammar reads it to its end. Where a declaration is
    refused for what it says and not for how it is formed, the exact condition is given. */
module Written {
  import opened Tokens
  import opened TokenBuffer
  import opened Options
  import opened ExprParser
  import opened TypeParser
  import opened Progress
  import opened Grammar

  // ---------- Pieces ----------

  /** How keywords and signs are spelled; no rule asks. */
  type Words = Kind -> string

  function K(w: Words, kind: Kind, more: Stream): (s: Stream)
    ensures s != [] && Head(s) == kind && Tail(s) == more
  {
    [Lexeme(kind, w(kind))] + more
  }

  function Id(name: string, more: Stream): (s: Stream)
    ensures s != [] && Head(s) == Identifier && HeadText(s) == name && Tail(s) == more
  {
    [Lexeme(Identifier, name)] + more
  }

  function Quoted(text: string, more: Stream): (s: Stream)
    ensures s != [] && Head(s) == StringLiteral && Tail(s) == more
  {
    [Lexeme(StringLiteral, text)] + more
  }

  function Builtin(name: string, more: Stream): (s: Stream)
    ensures s != [] && Head(s) == KW_stdlib && HeadText(s) == name && Tail(s) == more
  {
    [Lexeme(KW_stdlib, name)] + more
  }

  function Number(text: string, more: Stream): (s: Stream)
    ensures s != [] && Head(s) == IntegerLiteral && HeadText(s) == text && Tail(s) == more
  {
    [Lexeme(IntegerLiteral, text)] + more
  }

  /** Tokens that a type reads to their end wherever one of these follows. */
  ghost predicate IsType(t: Stream) {
    && t != [] && Head(t) in {KW_void, KW_const, KW_owned, KW_shared, KW_weak, Identifier, KW_stdlib, KW_record, KW_union}
    && forall v: Stream :: Head(v) in {Identifier, KW_operator, Comma, RParen, LCurly, Semicolon, Assign, FatArrow, KW_with, Arrow, Colon, RAngle, RCurly} ==>
         Type(t + v) == Some(v)
  }

  ghost predicate IsExpression(e: Stream) {
    forall v: Stream :: Head(v) in {Semicolon, RParen, RCurly} ==> Expression(e + v) == Some(v)
  }

  ghost predicate IsEdges(es: Stream) {
    && (forall v: Stream :: StartsPipeline(es + v))
    && (forall v: Stream :: Head(v) == RCurly ==> Edges(es + v) == Some(v))
  }

  ghost predicate IsMember(m: Stream) {
    && m != [] && Head(m) !in {RCurly, Eof, KW_public, KW_protected, KW_private, KW_internal, KW_ignore, KW_priority}
    && forall v: Stream :: Member(m + v) == Some(v)
  }

  /** The simplest of them. */
  lemma NameIsType(name: string)
    ensures IsType([Lexeme(Identifier, name)])
  {
    var t := [Lexeme(Identifier, name)];
    forall v: Stream | Head(v) in {Identifier, KW_operator, Comma, RParen, LCurly, Semicolon, Assign, FatArrow, KW_with, Arrow, Colon, RAngle, RCurly}
      ensures Type(t + v) == Some(v)
    {
      var s := t + v;
      assert Head(s) == Identifier && Tail(s) == v && HeadText(s) == name;
      assert ParseQualified(s) == Parsed([name], v, 0);
      assert ParseNamed(EMPTY, s, 1) == ParsePlain(EMPTY, s, 1) == ParseArguments(EMPTY.(nameParts := [name]), v, 0, 1);
      assert ParseType(s, 0) == ParseGuarded(s, 1) == ParseNamed(EMPTY, s, 1);
    }
  }

  // ---------- Imports, aliases, lifetimes ----------

  /** `import a/b {c, d};` */
  lemma ImportWritten(w: Words, a: string, b: string, c: string, d: string, u: Stream)
    ensures Import(K(w, KW_import, Id(a, K(w, Slash, Id(b, K(w, LCurly, Id(c, K(w, Comma, Id(d, K(w, RCurly, K(w, Semicolon, u))))))))))) == Some(u)
    ensures Import(K(w, KW_import, Id(a, K(w, Semicolon, u)))) == Some(u)
  {
    hide K, Id;
    assert Names(Id(a, K(w, Semicolon, u)), Slash) == Some(K(w, Semicolon, u));
    var more := K(w, LCurly, Id(c, K(w, Comma, Id(d, K(w, RCurly, K(w, Semicolon, u))))));
    assert Names(Id(b, more), Slash) == Some(more);
    assert Names(Id(a, K(w, Slash, Id(b, more))), Slash) == Some(more);
    assert Names(Id(d, K(w, RCurly, K(w, Semicolon, u))), Comma) == Some(K(w, RCurly, K(w, Semicolon, u)));
    assert Names(Id(c, K(w, Comma, Id(d, K(w, RCurly, K(w, Semicolon, u))))), Comma) == Some(K(w, RCurly, K(w, Semicolon, u)));
  }

  /** `std::import("path", name);` */
  lemma StdImportWritten(w: Words, path: string, a: string, u: Stream)
    ensures StdImport(Id("std", K(w, ColonColon, K(w, KW_import, K(w, LParen, Quoted(path, K(w, Comma, Id(a, K(w, RParen, K(w, Semicolon, u))))))))) ) == Some(u)
    ensures StdImport(Id("std", K(w, ColonColon, K(w, KW_import, K(w, LParen, Quoted(path, K(w, RParen, K(w, Semicolon, u)))))))) == Some(u)
  {
    hide K, Id;
  }

  /** `using a = T;` */
  lemma TypeAliasWritten(w: Words, a: string, t: Stream, u: Stream)
    requires IsType(t)
    ensures TypeAlias(K(w, KW_using, Id(a, K(w, Assign, t + K(w, Semicolon, u))))) == Some(u)
    ensures TypeAlias(K(w, KW_using, Builtin(a, K(w, Assign, t + K(w, Semicolon, u))))) == Some(u)
  {
    hide K, Id;
  }

  /** `lifetime a = b .. c;` */
  lemma LifetimeWritten(w: Words, a: string, b: string, c: string, u: Stream)
    ensures Lifetime(Id("lifetime", Id(a, K(w, Assign, Id(b, K(w, DotDot, Id(c, K(w, Semicolon, u)))))))) == Some(u)
    ensures Lifetime(Id("lifetime", Id(a, K(w, Assign, Id(b, K(w, DotDot, K(w, Semicolon, u))))))) == Some(u)
    ensures Lifetime(Id("lifetime", Id(a, K(w, Assign, Id(b, K(w, Semicolon, u)))))) == Some(u)
  {
    hide K, Id;
  }

  /** `instantiate T;` */
  lemma InstantiateWritten(w: Words, t: Stream, u: Stream)
    requires IsType(t)
    ensures Instantiate(K(w, KW_instantiate, t + K(w, Semicolon, u))) == Some(u)
  {
    hide K;
  }

  // ---------- Functions ----------

  /** No parameter, one, or two, as tokens from the opening parenthesis to the closing one. */
  function None0(w: Words, more: Stream): Stream { K(w, LParen, K(w, RParen, more)) }

  function One(w: Words, t: Stream, a: string, more: Stream): Stream { K(w, LParen, t + Id(a, K(w, RParen, more))) }

  function Two(w: Words, t: Stream, a: string, v: Stream, b: string, more: Stream): Stream {
    K(w, LParen, t + Id(a, K(w, Comma, v + Id(b, K(w, RParen, more)))))
  }

  lemma ParametersWritten(w: Words, t: Stream, a: string, v: Stream, b: string, u: Stream)
    requires IsType(t) && IsType(v)
    ensures CountedParameters(None0(w, u)) == Some(Counted(0, u))
    ensures CountedParameters(One(w, t, a, u)) == Some(Counted(1, u))
    ensures CountedParameters(Two(w, t, a, v, b, u)) == Some(Counted(2, u))
  {
    hide K, Id, IsTypeStart, Type;
    assert Head(t + Id(a, K(w, RParen, u))) == Head(t);
    assert Head(t + Id(a, K(w, Comma, v + Id(b, K(w, RParen, u))))) == Head(t);
    assert MoreParameters(v + Id(b, K(w, RParen, u)), 1) == Some(Counted(2, K(w, RParen, u)));
  }

  /** `T f(T a, V b) const = g -> access(streaming);` and `T f();` */
  lemma CppFunctionWritten(w: Words, t: Stream, f: string, a: string, v: Stream, b: string, g: string, u: Stream)
    requires IsType(t) && IsType(v)
    ensures CppFunction(t + Id(f, None0(w, K(w, Semicolon, u)))) == Some(u)
    ensures CppFunction(t + Id(f, Two(w, t, a, v, b, K(w, KW_const, K(w, Assign, Id(g, K(w, Semicolon, u))))))) == Some(u)
  {
    hide K, Id, Type, CountedParameters, One, None0, Two;
    ParametersWritten(w, t, a, v, b, K(w, Semicolon, u));
    ParametersWritten(w, t, a, v, b, K(w, KW_const, K(w, Assign, Id(g, K(w, Semicolon, u)))));
    ListStarts(w, t, a, v, b, K(w, Semicolon, u));
    ListStarts(w, t, a, v, b, K(w, KW_const, K(w, Assign, Id(g, K(w, Semicolon, u)))));
  }

  lemma ListStarts(w: Words, t: Stream, a: string, v: Stream, b: string, u: Stream)
    ensures Head(None0(w, u)) == LParen && Head(One(w, t, a, u)) == LParen && Head(Two(w, t, a, v, b, u)) == LParen
  {
  }

  /** No hint in place of a type. */
  predicate NoHint(t: Stream) {
    Head(t) == Identifier ==> HeadText(t) != "cardinality" && HeadText(t) != "access"
  }

  /** `f() -> T;`, `f(T a) const -> V = g;` and `f() -> (T a, V b);` */
  lemma RustFunctionWritten(w: Words, f: string, t: Stream, u: Stream)
    requires IsType(t) && NoHint(t)
    ensures RustFunction(Id(f, None0(w, K(w, Arrow, t + K(w, Semicolon, u))))) == Some(u)
  {
    hide K, Id, Type, CountedParameters, None0, Returns, IsType;
    ParametersWritten(w, t, "", t, "", K(w, Arrow, t + K(w, Semicolon, u)));
    ListStarts(w, t, "", t, "", K(w, Arrow, t + K(w, Semicolon, u)));
    SingleReturn(t, K(w, Semicolon, u));
  }

  lemma BoundFunctionWritten(w: Words, f: string, t: Stream, a: string, v: Stream, g: string, u: Stream)
    requires IsType(t) && IsType(v) && NoHint(v)
    ensures RustFunction(Id(f, One(w, t, a, K(w, KW_const, K(w, Arrow, v + K(w, Assign, Id(g, K(w, Semicolon, u)))))))) == Some(u)
  {
    hide K, Id, Type, CountedParameters, One, Returns, IsType;
    var behind := K(w, KW_const, K(w, Arrow, v + K(w, Assign, Id(g, K(w, Semicolon, u)))));
    ParametersWritten(w, t, a, t, a, behind);
    ListStarts(w, t, a, t, a, behind);
    SingleReturn(v, K(w, Assign, Id(g, K(w, Semicolon, u))));
  }

  lemma SeveralReturnsWritten(w: Words, f: string, t: Stream, a: string, v: Stream, b: string, u: Stream)
    requires IsType(t) && IsType(v)
    ensures RustFunction(Id(f, None0(w, K(w, Arrow, Two(w, t, a, v, b, K(w, Semicolon, u)))))) == Some(u)
  {
    hide K, Id, Type, CountedParameters, None0, Two, IsType;
    var several := Two(w, t, a, v, b, K(w, Semicolon, u));
    ParametersWritten(w, t, a, v, b, K(w, Semicolon, u));
    ParametersWritten(w, t, a, v, b, K(w, Arrow, several));
    ListStarts(w, t, a, v, b, K(w, Semicolon, u));
    ListStarts(w, t, a, v, b, K(w, Arrow, several));
  }

  lemma SingleReturn(t: Stream, u: Stream)
    requires IsType(t) && NoHint(t) && (Head(u) == Semicolon || Head(u) == Assign)
    ensures Returns(t + u) == Some(u)
  {
    hide Type;
    assert Head(t + u) == Head(t) && HeadText(t + u) == HeadText(t);
  }

  /** `(T a, V b) with returns(x, y)`: the selection names one return or two, not the same one twice. */
  lemma SelectionWritten(w: Words, t: Stream, a: string, v: Stream, b: string, x: string, y: string, u: Stream)
    requires IsType(t) && IsType(v) && (Head(u) == Semicolon || Head(u) == Assign)
    ensures Returns(Two(w, t, a, v, b, K(w, KW_with, Id("returns", K(w, LParen, Id(x, K(w, Comma, Id(y, K(w, RParen, u))))))))) ==
            if x == y && x != "_" then None else Some(u)
  {
    hide K, Id, Type, CountedParameters, Two, IsType;
    var clause := K(w, KW_with, Id("returns", K(w, LParen, Id(x, K(w, Comma, Id(y, K(w, RParen, u)))))));
    ParametersWritten(w, t, a, v, b, clause);
    ListStarts(w, t, a, v, b, clause);
    SelectionReads(w, x, y, u);
  }

  lemma SelectionReads(w: Words, x: string, y: string, u: Stream)
    ensures UsedReturnsClause(K(w, KW_with, Id("returns", K(w, LParen, Id(x, K(w, Comma, Id(y, K(w, RParen, u)))))))) ==
            if x == y && x != "_" then None else Some(Counted(2, u))
  {
    hide K, Id;
    var seen: set<string> := if x != "_" then {x} else {};
    assert MoreUsedReturns(Id(y, K(w, RParen, u)), seen, 1) == if y != "_" && y in seen then None else Some(Counted(2, K(w, RParen, u)));
    assert MoreUsedReturns(Id(x, K(w, Comma, Id(y, K(w, RParen, u)))), {}, 0) == MoreUsedReturns(Id(y, K(w, RParen, u)), {} + seen, 1) by {
      assert {} + seen == seen;
    }
  }

  /** There is nothing to select from one return, and no more than there are. */
  lemma TooMuchSelected(w: Words, t: Stream, a: string, x: string, y: string, u: Stream)
    requires IsType(t) && NoHint(t)
    ensures var clause := K(w, KW_with, Id("returns", K(w, LParen, Id(x, K(w, Comma, Id(y, K(w, RParen, u)))))));
            Returns(t + clause) == None && Returns(One(w, t, a, clause)) == None
  {
    hide K, Id, Type, CountedParameters, One;
    var clause := K(w, KW_with, Id("returns", K(w, LParen, Id(x, K(w, Comma, Id(y, K(w, RParen, u)))))));
    assert Head(t + clause) == Head(t) && HeadText(t + clause) == HeadText(t);
    ParametersWritten(w, t, a, t, a, clause);
    ListStarts(w, t, a, t, a, clause);
    SelectionReads(w, x, y, u);
  }

  /** `fn operator + (T a, V b) -> W;` for every kind that may be overloaded and no other. */
  lemma OperatorWritten(w: Words, op: Kind, t: Stream, a: string, v: Stream, b: string, x: Stream, u: Stream)
    requires IsType(t) && IsType(v) && IsType(x) && op != Eof
    ensures Operator(K(w, KW_fn, K(w, KW_operator, K(w, op, Two(w, t, a, v, b, K(w, Arrow, x + K(w, Semicolon, u))))))) ==
            if op in {Plus, Minus, Star, Slash, Percent, EqEq, NotEq, LAngle, RAngle, LessEq, GreaterEq, Amp, Pipe, Caret, Tilde,
                      ShiftLeft, ShiftRight, AmpAmp, PipePipe, Bang, FatArrow} then Some(u) else None
  {
    hide K, Id, Type, CountedParameters, Two;
    var behind := K(w, Arrow, x + K(w, Semicolon, u));
    ParametersWritten(w, t, a, v, b, behind);
    ListStarts(w, t, a, v, b, behind);
  }

  /** `handler h(T a) -> V;` with one value or none; two are refused. */
  lemma HandlerWritten(w: Words, h: string, t: Stream, a: string, v: Stream, b: string, x: Stream, u: Stream)
    requires IsType(t) && IsType(v) && IsType(x)
    ensures var behind := K(w, Arrow, x + K(w, Semicolon, u));
            && Handler(K(w, KW_handler, Id(h, None0(w, behind)))) == Some(u)
            && Handler(K(w, KW_handler, Id(h, One(w, t, a, behind)))) == Some(u)
            && Handler(K(w, KW_handler, Id(h, Two(w, t, a, v, b, behind)))) == None
  {
    hide K, Id, Type, CountedParameters, Two, One, None0;
    var behind := K(w, Arrow, x + K(w, Semicolon, u));
    ParametersWritten(w, t, a, v, b, behind);
    ListStarts(w, t, a, v, b, behind);
  }

  /** `comptime fn f(T a) -> V { e }` */
  lemma ComptimeFunctionWritten(w: Words, f: string, t: Stream, a: string, v: Stream, e: Stream, u: Stream)
    requires IsType(t) && IsType(v) && IsExpression(e)
    ensures Member(K(w, KW_comptime, K(w, KW_fn, Id(f, One(w, t, a, K(w, Arrow, v + K(w, LCurly, e + K(w, RCurly, u)))))))) == Some(u)
  {
    hide K, Id, Type, Expression;
    var list := t + Id(a, K(w, RParen, K(w, Arrow, v + K(w, LCurly, e + K(w, RCurly, u)))));
    assert Head(list) == Head(t);
    assert GuardedParameters(list) == Some(K(w, RParen, K(w, Arrow, v + K(w, LCurly, e + K(w, RCurly, u)))));
    var s := K(w, KW_fn, Id(f, K(w, LParen, list)));
    assert ComptimeFunction(s) == Some(u);
    assert Modifiers(K(w, KW_comptime, s)) == (s, true);
  }

  // ---------- Logic blocks ----------

  /** A list of edges in a logic block, and in a flow. */
  lemma PipelineWritten(w: Words, f: string, es: Stream, u: Stream)
    requires IsEdges(es)
    ensures LogicBlock(K(w, KW_fn, Id(f, K(w, LCurly, es + K(w, RCurly, u))))) == Some(u)
    ensures Flow(K(w, KW_flow, Id(f, K(w, LCurly, es + K(w, RCurly, u))))) == Some(u)
  {
    hide K, Id, Edges, StartsPipeline;
  }

  /** `fn f { a = e; b::c(args) -> (x, y); }` */
  lemma OperationsWritten(w: Words, f: string, a: string, e: Stream, b: string, c: string, args: Stream, x: string, y: string, u: Stream)
    requires IsExpression(e)
    requires forall i :: 0 <= i < |args| ==> args[i].kind !in {RParen, Semicolon, Eof}
    ensures LogicBlock(K(w, KW_fn, Id(f, K(w, LCurly, Id(a, K(w, Assign, e + K(w, Semicolon, Id(b, K(w, ColonColon, Id(c, K(w, LParen,
              args + K(w, RParen, K(w, Arrow, K(w, LParen, Id(x, K(w, Comma, Id(y, K(w, RParen, K(w, Semicolon, K(w, RCurly, u)))))))))))))))))))) == Some(u)
  {
    hide K, Id, Expression;
    var binding := K(w, LParen, Id(x, K(w, Comma, Id(y, K(w, RParen, K(w, Semicolon, K(w, RCurly, u)))))));
    var call := Id(b, K(w, ColonColon, Id(c, K(w, LParen, args + K(w, RParen, K(w, Arrow, binding))))));
    BindingReads(w, x, y, K(w, Semicolon, K(w, RCurly, u)));
    CallReads(w, b, c, args, K(w, Arrow, binding));
    assert Invocation(call) == Some(K(w, RCurly, u)) by { hide FunctionRef, BehindArguments; }
    assert Operation(call) == Some(K(w, RCurly, u));
    assert Operations(K(w, RCurly, u)) == Some(K(w, RCurly, u));
    assert Operations(call) == Some(K(w, RCurly, u));
    var whole := Id(a, K(w, Assign, e + K(w, Semicolon, call)));
    assert Operation(whole) == Some(call);
    assert Operations(whole) == Some(K(w, RCurly, u));
  }

  lemma BindingReads(w: Words, x: string, y: string, u: Stream)
    ensures ReturnBinding(K(w, LParen, Id(x, K(w, Comma, Id(y, K(w, RParen, u)))))) == Some(u)
  {
    hide K, Id;
    assert Names(Id(y, K(w, RParen, u)), Comma) == Some(K(w, RParen, u));
    assert Names(Id(x, K(w, Comma, Id(y, K(w, RParen, u)))), Comma) == Some(K(w, RParen, u));
  }

  lemma CallReads(w: Words, b: string, c: string, args: Stream, u: Stream)
    requires forall i :: 0 <= i < |args| ==> args[i].kind !in {RParen, Semicolon, Eof}
    ensures FunctionRef(Id(b, K(w, ColonColon, Id(c, K(w, LParen, args + K(w, RParen, u)))))) == Some(K(w, LParen, args + K(w, RParen, u)))
    ensures BehindArguments(args + K(w, RParen, u)) == K(w, RParen, u)
  {
    hide K, Id;
    var call := K(w, LParen, args + K(w, RParen, u));
    assert MoreParts(call) == call;
    assert MoreParts(K(w, ColonColon, Id(c, call))) == call;
    ArgumentsPassed(args, K(w, RParen, u));
  }

  lemma {:induction false} ArgumentsPassed(args: Stream, u: Stream)
    requires Head(u) == RParen && forall i :: 0 <= i < |args| ==> args[i].kind !in {RParen, Semicolon, Eof}
    ensures BehindArguments(args + u) == u
    decreases |args|
  {
    if args == [] {
      assert args + u == u;
    } else {
      assert Tail(args + u) == args[1..] + u && Head(args + u) == args[0].kind;
      ArgumentsPassed(args[1..], u);
    }
  }

  /** `stage<n>` takes the numbers an int can hold and none with a sign. */
  lemma StageWritten(w: Words, n: string, u: Stream)
    ensures Stage(K(w, KW_stage, K(w, LAngle, Number(n, K(w, RAngle, u))))) == if ParseInt(n).Some? then Some(u) else None
    ensures Stage(K(w, KW_stage, K(w, LAngle, K(w, Minus, Number(n, K(w, RAngle, u)))))) == None
  {
    hide K, Number;
  }

  // ---------- Hints ----------

  /** `cardinality(m..nK)`, both inside the range of an int64. */
  lemma CardinalityWritten(w: Words, m: string, n: string, unit: string, u: Stream)
    ensures Hint(Id("cardinality", K(w, LParen, Number(m, K(w, DotDot, Number(n, Id(unit, K(w, RParen, u)))))))) ==
            if IsInt64(m) && IsInt64(n) && unit in {"k", "K", "m", "M"} then Some(u) else None
    ensures Hint(Id("cardinality", K(w, LParen, Number(m, K(w, DotDot, K(w, RParen, u)))))) == if IsInt64(m) then Some(u) else None
    ensures Hint(Id("cardinality", K(w, LParen, Number(m, K(w, RParen, u))))) == if IsInt64(m) then Some(u) else None
  {
    hide K, Id, Number, IsInt64;
  }

  /** `access(mode)` for four modes; one of them may come with a size, which an int holds and which is not 0. */
  lemma AccessWritten(w: Words, mode: string, n: string, u: Stream)
    ensures Hint(Id("access", K(w, LParen, Id(mode, K(w, RParen, u))))) ==
            if mode in {"streaming", "random", "tiled", "gather_scatter"} then Some(u) else None
    ensures Hint(Id("access", K(w, LParen, Id(mode, K(w, Comma, Number(n, K(w, RParen, u))))))) ==
            if mode == "tiled" && ParseInt(n).Some? && ParseInt(n) != Some(0) then Some(u) else None
  {
    hide K, Id, Number;
  }

  /** `T f() -> cardinality(m), access(mode);` */
  lemma HintsWritten(w: Words, t: Stream, f: string, m: string, mode: string, u: Stream)
    requires IsType(t) && IsInt64(m) && mode in {"streaming", "random", "gather_scatter"}
    ensures var hints := Id("cardinality", K(w, LParen, Number(m, K(w, RParen, K(w, Comma, Id("access", K(w, LParen, Id(mode, K(w, RParen, K(w, Semicolon, u))))))))));
            CppFunction(t + Id(f, None0(w, K(w, Arrow, hints)))) == Some(u)
  {
    hide K, Id, Number, IsInt64, None0, CountedParameters, Type, Hint;
    var hints := Id("cardinality", K(w, LParen, Number(m, K(w, RParen, K(w, Comma, Id("access", K(w, LParen, Id(mode, K(w, RParen, K(w, Semicolon, u))))))))));
    HintsRead(w, m, mode, K(w, Semicolon, u));
    ParametersWritten(w, t, f, t, f, K(w, Arrow, hints));
    ListStarts(w, t, f, t, f, K(w, Arrow, hints));
  }

  /** `f() -> cardinality(m), access(mode);`, hints in place of a type. */
  lemma OnlyHintsWritten(w: Words, t: Stream, f: string, m: string, mode: string, u: Stream)
    requires IsType(t) && IsInt64(m) && mode in {"streaming", "random", "gather_scatter"}
    ensures var hints := Id("cardinality", K(w, LParen, Number(m, K(w, RParen, K(w, Comma, Id("access", K(w, LParen, Id(mode, K(w, RParen, K(w, Semicolon, u))))))))));
            RustFunction(Id(f, None0(w, K(w, Arrow, hints)))) == Some(u)
  {
    hide K, Id, Number, IsInt64, None0, CountedParameters, Type, Hint;
    var hints := Id("cardinality", K(w, LParen, Number(m, K(w, RParen, K(w, Comma, Id("access", K(w, LParen, Id(mode, K(w, RParen, K(w, Semicolon, u))))))))));
    HintsRead(w, m, mode, K(w, Semicolon, u));
    ParametersWritten(w, t, f, t, f, K(w, Arrow, hints));
    ListStarts(w, t, f, t, f, K(w, Arrow, hints));
  }

  lemma HintsRead(w: Words, m: string, mode: string, u: Stream)
    requires IsInt64(m) && mode in {"streaming", "random", "gather_scatter"} && Head(u) != Comma
    ensures Hints(Id("cardinality", K(w, LParen, Number(m, K(w, RParen, K(w, Comma, Id("access", K(w, LParen, Id(mode, K(w, RParen, u)))))))))) == Some(u)
  {
    hide K, Id, Number, IsInt64, Hint;
    var more := Id("access", K(w, LParen, Id(mode, K(w, RParen, u))));
    AccessWritten(w, mode, m, u);
    CardinalityWritten(w, m, m, "", K(w, Comma, more));
    assert Hints(more) == Some(u);
  }

  // ---------- Constraints, adaptations, type functions ----------

  /** `constraint C : D { T a; V f(T b); }` */
  lemma ConstraintWritten(w: Words, c: string, d: string, t: Stream, a: string, v: Stream, f: string, b: string, u: Stream)
    requires IsType(t) && IsType(v)
    ensures Constraint(K(w, KW_constraint, Id(c, K(w, Colon, Id(d, K(w, LCurly, t + Id(a, K(w, Semicolon, v + Id(f, K(w, LParen,
              t + Id(b, K(w, RParen, K(w, Semicolon, K(w, RCurly, u)))))))))))))) == Some(u)
  {
    hide K, Id, Type;
    var list := t + Id(b, K(w, RParen, K(w, Semicolon, K(w, RCurly, u))));
    assert Head(list) == Head(t);
    assert GuardedParameters(K(w, RParen, K(w, Semicolon, K(w, RCurly, u)))) == Some(K(w, RParen, K(w, Semicolon, K(w, RCurly, u))));
    assert GuardedParameters(list) == Some(K(w, RParen, K(w, Semicolon, K(w, RCurly, u))));
    var second := v + Id(f, K(w, LParen, list));
    assert Head(second) == Head(v);
    assert ConstraintMember(second) == Some(K(w, RCurly, u));
    assert ConstraintMembers(K(w, RCurly, u)) == Some(K(w, RCurly, u));
    assert ConstraintMembers(second) == Some(K(w, RCurly, u));
    var first := t + Id(a, K(w, Semicolon, second));
    assert Head(first) == Head(t);
    assert ConstraintMember(first) == Some(second);
    assert ConstraintMembers(first) == Some(K(w, RCurly, u));
  }

  /** `adapt C for T { a = b; c = d; }` */
  lemma AdaptWritten(w: Words, n: string, t: Stream, a: string, b: string, c: string, d: string, u: Stream)
    requires IsType(t)
    ensures Adapt(K(w, KW_adapt, Id(n, K(w, KW_for, t + K(w, LCurly, Id(a, K(w, Assign, Id(b, K(w, Semicolon, Id(c, K(w, Assign, Id(d, K(w, Semicolon,
              K(w, RCurly, u)))))))))))))) == Some(u)
  {
    hide K, Id, Type;
    var second := Id(c, K(w, Assign, Id(d, K(w, Semicolon, K(w, RCurly, u)))));
    assert Mapping(second) == Some(K(w, RCurly, u));
    assert Mappings(K(w, RCurly, u)) == Some(K(w, RCurly, u));
    assert Mappings(second) == Some(K(w, RCurly, u));
    assert Mapping(Id(a, K(w, Assign, Id(b, K(w, Semicolon, second))))) == Some(second);
    assert Mappings(Id(a, K(w, Assign, Id(b, K(w, Semicolon, second))))) == Some(K(w, RCurly, u));
  }

  /** `typefn F(typename a, typename b) -> typename { match a { T => V, _ => T } }` */
  lemma TypeFunctionWritten(w: Words, f: string, a: string, b: string, t: Stream, v: Stream, u: Stream)
    requires IsType(t) && IsType(v) && !StartsWith(t, "_")
    ensures TypeFunction(K(w, KW_typefn, Id(f, K(w, LParen, K(w, KW_typename, Id(a, K(w, Comma, K(w, KW_typename, Id(b, K(w, RParen, K(w, Arrow, K(w, KW_typename,
              K(w, LCurly, K(w, KW_match, Id(a, K(w, LCurly, t + K(w, FatArrow, v + K(w, Comma, Id("_", K(w, FatArrow, t + K(w, RCurly, K(w, RCurly, u)))))))))))))))))))))) == Some(u)
  {
    hide K, Id, Type;
    var close := K(w, RCurly, K(w, RCurly, u));
    var last := Id("_", K(w, FatArrow, t + close));
    var first := t + K(w, FatArrow, v + K(w, Comma, last));
    ArmsRead(w, t, v, K(w, RCurly, u));
    var body := K(w, LCurly, K(w, KW_match, Id(a, K(w, LCurly, first))));
    assert TypeFunctionBody(body) == Some(u) by { hide MatchArms; }
    var params := K(w, RParen, K(w, Arrow, K(w, KW_typename, body)));
    assert TypeFunctionParameters(params) == Some(params);
    assert TypeFunctionParameters(K(w, KW_typename, Id(b, params))) == Some(params);
    assert TypeFunctionParameters(K(w, KW_typename, Id(a, K(w, Comma, K(w, KW_typename, Id(b, params)))))) == Some(params);
    hide TypeFunctionParameters, TypeFunctionBody;
  }

  lemma ArmsRead(w: Words, t: Stream, v: Stream, u: Stream)
    requires IsType(t) && IsType(v) && !StartsWith(t, "_")
    ensures MatchArms(t + K(w, FatArrow, v + K(w, Comma, Id("_", K(w, FatArrow, t + K(w, RCurly, u)))))) == Some(K(w, RCurly, u))
  {
    hide K, Id, Type;
    var last := Id("_", K(w, FatArrow, t + K(w, RCurly, u)));
    var first := t + K(w, FatArrow, v + K(w, Comma, last));
    assert Head(first) == Head(t) && HeadText(first) == HeadText(t);
    assert MatchArms(K(w, RCurly, u)) == Some(K(w, RCurly, u));
    assert MatchArms(last) == Some(K(w, RCurly, u));
  }

  // ---------- Template parameters ----------

  /** `<typename ... a : T = V, T b = n, template <typename c, typename> class d>` */
  lemma TemplateParametersWritten(w: Words, a: string, t: Stream, v: Stream, b: string, n: string, c: string, d: string, u: Stream)
    requires IsType(t) && IsType(v) && Head(t) != KW_typename
    ensures TemplateParameters(K(w, LAngle, K(w, KW_typename, K(w, Ellipsis, Id(a, K(w, Colon, t + K(w, Assign, v + K(w, Comma, t + Id(b, K(w, Assign,
              Number(n, K(w, Comma, K(w, KW_template, K(w, LAngle, K(w, KW_typename, Id(c, K(w, Comma, K(w, KW_typename, K(w, RAngle, K(w, KW_class, Id(d,
              K(w, RAngle, u)))))))))))))))))))))) == if ParseInt(n).Some? then Some(u) else None
    ensures TemplateParameters(K(w, LAngle, K(w, RAngle, u))) == Some(u)
  {
    hide K, Id, Number, Type;
    var end := K(w, RAngle, u);
    var third := K(w, KW_template, K(w, LAngle, K(w, KW_typename, Id(c, K(w, Comma, K(w, KW_typename, K(w, RAngle, K(w, KW_class, Id(d, end)))))))));
    ThirdParameter(w, c, d, end);
    var second := t + Id(b, K(w, Assign, Number(n, K(w, Comma, third))));
    assert Head(second) == Head(t);
    assert TemplateParameter(second) == if ParseInt(n).Some? then Some(K(w, Comma, third)) else None;
    assert TemplateParameterList(second) == if ParseInt(n).Some? then Some(end) else None;
    var first := K(w, KW_typename, K(w, Ellipsis, Id(a, K(w, Colon, t + K(w, Assign, v + K(w, Comma, second))))));
    assert TemplateParameter(first) == Some(K(w, Comma, second));
    hide TemplateParameter;
  }

  lemma ThirdParameter(w: Words, c: string, d: string, u: Stream)
    requires Head(u) == RAngle
    ensures TemplateParameterList(K(w, KW_template, K(w, LAngle, K(w, KW_typename, Id(c, K(w, Comma, K(w, KW_typename, K(w, RAngle, K(w, KW_class, Id(d, u)))))))))) == Some(u)
  {
    hide K, Id;
    var behind := K(w, RAngle, K(w, KW_class, Id(d, u)));
    assert BehindTypenames(K(w, KW_typename, behind)) == behind;
    assert BehindTypenames(K(w, KW_typename, Id(c, K(w, Comma, K(w, KW_typename, behind))))) == behind;
  }

  // ---------- Debug blocks ----------

  /** `debug T { view a from b[m..n]; summary "s"; inactive_region c hidden; render method = d { ... } }` */
  lemma DebugWritten(w: Words, t: string, a: string, b: string, m: string, n: string, text: string, c: string, d: string, inside: Stream, u: Stream)
    requires forall i :: 0 <= i < |inside| ==> inside[i].kind !in {LCurly, RCurly, Eof}
    ensures Debug(Id("debug", Id(t, K(w, LCurly, Id("view", Id(a, Id("from", Id(b, K(w, LBracket, Number(m, K(w, DotDot, Number(n, K(w, RBracket, K(w, Semicolon,
              Id("summary", Quoted(text, K(w, Semicolon,
              Id("inactive_region", Id(c, Id("hidden", K(w, Semicolon,
              Id("render", Id("method", K(w, Assign, Id(d, K(w, LCurly, inside + K(w, RCurly, K(w, RCurly, u)))))))))))))))))))))))))))) ==
            if ParseInt(m).Some? && ParseInt(n).Some? then Some(u) else None
  {
    hide K, Id, Number;
    var end := K(w, RCurly, u);
    var render := Id("render", Id("method", K(w, Assign, Id(d, K(w, LCurly, inside + K(w, RCurly, end))))));
    assert DebugItems(end) == Some(end);
    RenderRead(w, d, inside, end);
    assert DebugItems(render) == Some(end);
    var region := Id("inactive_region", Id(c, Id("hidden", K(w, Semicolon, render))));
    assert DebugItem(region) == Some(render);
    assert DebugItems(region) == Some(end);
    var summary := Id("summary", Quoted(text, K(w, Semicolon, region)));
    assert DebugItem(summary) == Some(region);
    assert DebugItems(summary) == Some(end);
    ViewRead(w, a, b, m, n, summary);
    hide DebugItem;
  }

  lemma ViewRead(w: Words, a: string, b: string, m: string, n: string, u: Stream)
    ensures DebugItem(Id("view", Id(a, Id("from", Id(b, K(w, LBracket, Number(m, K(w, DotDot, Number(n, K(w, RBracket, K(w, Semicolon, u))))))))))) ==
            if ParseInt(m).Some? && ParseInt(n).Some? then Some(u) else None
  {
    hide K, Id, Number;
  }

  lemma RenderRead(w: Words, d: string, inside: Stream, u: Stream)
    requires forall i :: 0 <= i < |inside| ==> inside[i].kind !in {LCurly, RCurly, Eof}
    requires Head(u) != Eof
    ensures DebugItem(Id("render", Id("method", K(w, Assign, Id(d, K(w, LCurly, inside + K(w, RCurly, u))))))) == Some(u)
  {
    hide K, Id;
    var body := inside + K(w, RCurly, u);
    InsidePassed(inside, K(w, RCurly, u));
    assert body != [] && Head(body) != Eof by {
      if inside != [] { assert Head(body) == inside[0].kind; } else { assert body == K(w, RCurly, u); }
    }
    assert RenderBody(K(w, RCurly, u), 1) == Some(u);
    assert RenderBody(K(w, LCurly, body), 0) == Some(u);
  }

  lemma {:induction false} InsidePassed(inside: Stream, u: Stream)
    requires Head(u) == RCurly && forall i :: 0 <= i < |inside| ==> inside[i].kind !in {LCurly, RCurly, Eof}
    ensures RenderBody(inside + u, 1) == RenderBody(u, 1)
    decreases |inside|
  {
    if inside == [] {
      assert inside + u == u;
    } else {
      assert Tail(inside + u) == inside[1..] + u && Head(inside + u) == inside[0].kind;
      assert Head(inside[1..] + u) != Eof by {
        if |inside| == 1 { assert inside[1..] + u == u; } else { assert Head(inside[1..] + u) == inside[1].kind; }
      }
      InsidePassed(inside[1..], u);
    }
  }

  // ---------- What a member is, by its first tokens ----------

  /** The first token tells what a member is; for a word the second one does. */
  lemma MembersByFirstToken(s: Stream)
    ensures match Head(s)
            case KW_fn => Member(s) == if Second(s) == KW_operator then Operator(s) else LogicBlock(s)
            case KW_handler => Member(s) == Handler(s)
            case KW_flow => Member(s) == Flow(s)
            case KW_using => Member(s) == TypeAlias(s)
            case KW_namespace => Member(s) == Namespace(s)
            case KW_internal => Member(s) == if Second(s) == KW_namespace then Namespace(Tail(s)) else None
            case KW_template => Member(s) == Template(s)
            case KW_type => Member(s) == TypeDefinition(s)
            case KW_class => Member(s) == TypeDefinition(s)
            case KW_constraint => Member(s) == Constraint(s)
            case KW_adapt => Member(s) == Adapt(s)
            case KW_instantiate => Member(s) == Instantiate(s)
            case KW_typefn => Member(s) == TypeFunction(s)
            case Identifier =>
              Member(s) == if HeadText(s) == "std" && Second(s) == ColonColon then StdImport(s)
                           else if HeadText(s) == "lifetime" && Second(s) == Identifier then Lifetime(s)
                           else if Second(s) == LParen || Second(s) == Dot then RustFunction(s) else CppFunction(s)
            case KW_static => Member(s) == Member(Tail(s))
            case KW_explicit => Member(s) == Member(Tail(s))
            case KW_external => Member(s) == Member(Tail(s))
            case KW_comptime =>
              (Head(Tail(s)) == KW_if ==> Member(s) == ComptimeIf(Tail(s))) &&
              (Head(Tail(s)) == KW_fn ==> Member(s) == ComptimeFunction(Tail(s)))
            case KW_virtual => Member(s) == None
            case _ => Head(s) in {KW_void, KW_const, KW_owned, KW_shared, KW_weak, KW_stdlib, KW_record, KW_union} ==> Member(s) == CppFunction(s)
  {
    hide Operator, LogicBlock, Handler, Flow, TypeAlias, Namespace, Template, TypeDefinition, Constraint, Adapt, Instantiate, TypeFunction;
    hide StdImport, Lifetime, RustFunction, CppFunction, ComptimeIf, ComptimeFunction;
    if Head(s) == KW_comptime {
      assert Modifiers(s) == (Modifiers(Tail(s)).0, true);
    } else if Head(s) !in {KW_static, KW_explicit, KW_external} {
      assert Modifiers(s) == (s, false) && Member(s) == PlainMember(s);
      if !StartsNamespace(s) && Head(s) !in {KW_fn, KW_handler, KW_flow, KW_using} && !StartsStdImport(s) {
        assert PlainMember(s) == Definition(s);
      }
    }
  }

  // ---------- Members in lists ----------

  /** Members that a section, and members in braces, read to their end. */
  ghost predicate AreMembers(ms: Stream) {
    && (forall v: Stream :: SectionEnds(v) ==> SectionMembers(ms + v) == Some(v))
    && (forall v: Stream :: Head(v) == RCurly ==> Members(ms + v) == Some(v))
  }

  /** Whatever members, in whatever number. */
  lemma MembersJoin(m: Stream, ms: Stream)
    requires IsMember(m) && AreMembers(ms)
    ensures AreMembers([]) && AreMembers(m + ms)
  {
    hide Member;
    forall v: Stream
      ensures SectionEnds(v) ==> SectionMembers([] + v) == Some(v) && SectionMembers((m + ms) + v) == Some(v)
      ensures Head(v) == RCurly ==> Members([] + v) == Some(v) && Members((m + ms) + v) == Some(v)
    {
      assert [] + v == v && (m + ms) + v == m + (ms + v);
      assert Head(m + (ms + v)) == Head(m);
      assert Member(m + (ms + v)) == Some(ms + v);
    }
  }

  /** A header that sets the priority of the members behind it, for the five levels there are. */
  lemma PriorityWritten(w: Words, level: string, ms: Stream, u: Stream)
    requires AreMembers(ms) && SectionEnds(u)
    ensures SectionMembers(K(w, KW_priority, K(w, LParen, Id(level, K(w, RParen, K(w, Colon, ms + u)))))) ==
            if level in {"critical", "high", "normal", "low", "background"} then Some(u) else None
  {
    hide K, Id;
    var s := K(w, KW_priority, K(w, LParen, Id(level, K(w, RParen, K(w, Colon, ms + u)))));
    assert PriorityHeader(s) == if level in {"critical", "high", "normal", "low", "background"} then Some(ms + u) else None;
  }

  /** `comptime if (e) { ms } else { ns }` */
  lemma ConditionalWritten(w: Words, e: Stream, ms: Stream, ns: Stream, u: Stream)
    requires IsExpression(e) && AreMembers(ms) && AreMembers(ns)
    ensures Member(K(w, KW_comptime, K(w, KW_if, K(w, LParen, e + K(w, RParen, K(w, LCurly, ms + K(w, RCurly, K(w, KW_else, K(w, LCurly, ns + K(w, RCurly, u)))))))))) == Some(u)
    ensures Head(u) != KW_else ==> Member(K(w, KW_comptime, K(w, KW_if, K(w, LParen, e + K(w, RParen, K(w, LCurly, ms + K(w, RCurly, u))))))) == Some(u)
  {
    hide K, Expression, Members;
    var otherwise := K(w, LCurly, ns + K(w, RCurly, u));
    assert Braced(otherwise) == Some(u);
    forall v: Stream
      ensures Braced(K(w, LCurly, ms + K(w, RCurly, v))) == Some(v)
    {
    }
    hide Braced;
    MembersByFirstToken(K(w, KW_comptime, K(w, KW_if, K(w, LParen, e + K(w, RParen, K(w, LCurly, ms + K(w, RCurly, K(w, KW_else, otherwise))))))));
    MembersByFirstToken(K(w, KW_comptime, K(w, KW_if, K(w, LParen, e + K(w, RParen, K(w, LCurly, ms + K(w, RCurly, u)))))));
    hide Member;
  }

  // ---------- Types ----------

  ghost predicate AreTypeMembers(ms: Stream, name: string) {
    forall v: Stream :: SectionEnds(v) ==> TypeMembers(ms + v, name) == Some(v)
  }

  ghost predicate IsTypeMember(m: Stream, name: string) {
    && m != [] && Head(m) !in {RCurly, Eof, KW_public, KW_protected, KW_private, KW_internal, KW_ignore, KW_priority}
    && forall v: Stream :: TypeMember(m + v, name) == Some(v)
  }

  lemma Joined(m: Stream, ms: Stream, v: Stream)
    ensures (m + ms) + v == m + (ms + v) && [] + v == v && (m != [] ==> Head(m + (ms + v)) == Head(m))
  {
  }

  lemma NoTypeMembers(v: Stream, name: string)
    requires SectionEnds(v)
    ensures TypeMembers(v, name) == Some(v)
  {
  }

  lemma OneTypeMember(m: Stream, v: Stream, name: string)
    requires IsTypeMember(m, name)
    ensures TypeMembers(m + v, name) == TypeMembers(v, name)
  {
    hide TypeMember;
    assert Head(m + v) == Head(m);
  }

  lemma TypeMembersJoin(m: Stream, ms: Stream, name: string)
    requires IsTypeMember(m, name) && AreTypeMembers(ms, name)
    ensures AreTypeMembers([], name) && AreTypeMembers(m + ms, name)
  {
    hide TypeMembers, TypeMember, IsTypeMember;
    forall v: Stream | SectionEnds(v)
      ensures TypeMembers([] + v, name) == Some(v) && TypeMembers((m + ms) + v, name) == Some(v)
    {
      Joined(m, ms, v);
      NoTypeMembers(v, name);
      assert TypeMembers(ms + v, name) == Some(v);
      OneTypeMember(m, ms + v, name);
    }
  }

  /** `type n<T, V> : public T { private: ms }`, with `class` for `type` as well; only the name matters to the members. */
  lemma TypeWritten(w: Words, kind: Kind, how: Kind, n: string, t: Stream, v: Stream, visibility: Kind, ms: Stream, u: Stream)
    requires IsType(t) && IsType(v) && AreTypeMembers(ms, n) && kind in {KW_type, KW_class} && how != Eof
    requires visibility in {KW_public, KW_protected, KW_private, KW_internal, KW_ignore}
    ensures TypeDefinition(K(w, kind, Id(n, K(w, LAngle, t + K(w, Comma, v + K(w, RAngle, K(w, Colon, K(w, how, t + K(w, LCurly,
              K(w, visibility, K(w, Colon, ms + K(w, RCurly, u)))))))))))) == if how == KW_public then Some(u) else None
    ensures TypeDefinition(K(w, kind, Id(n, K(w, LCurly, K(w, visibility, K(w, Colon, ms + K(w, RCurly, u))))))) == Some(u)
    ensures TypeDefinition(K(w, kind, Id(n, K(w, LCurly, K(w, RCurly, u))))) == Some(u)
  {
    hide K, Id, Type, TypeMembers;
    var section := K(w, visibility, K(w, Colon, ms + K(w, RCurly, u)));
    assert TypeSection(section, n) == Some(K(w, RCurly, u));
    assert TypeBody(K(w, RCurly, u), n) == Some(K(w, RCurly, u));
    assert TypeBody(section, n) == Some(K(w, RCurly, u)) by { hide TypeSection; }
    hide TypeBody;
    var derived := K(w, Colon, K(w, how, t + K(w, LCurly, section)));
    var second := v + K(w, RAngle, derived);
    assert SpecializationTypes(K(w, RAngle, derived)) == Some(K(w, RAngle, derived));
    assert Head(second) == Head(v);
    assert SpecializationTypes(second) == Some(K(w, RAngle, derived));
    assert Head(t + K(w, Comma, second)) == Head(t);
    assert SpecializationTypes(t + K(w, Comma, second)) == Some(K(w, RAngle, derived));
    hide SpecializationTypes;
    assert Derivation(derived) == if how == KW_public then Some(K(w, LCurly, section)) else None;
  }

  /** `~n();`, `explicit n(T a);`, `n(T a);` must name the type, and a constructor is never static. */
  lemma ConstructorsWritten(w: Words, n: string, x: string, t: Stream, a: string, u: Stream)
    requires IsType(t)
    ensures TypeMember(K(w, Tilde, Id(x, None0(w, K(w, Semicolon, u)))), n) == if x == n then Some(u) else None
    ensures TypeMember(K(w, KW_explicit, Id(x, One(w, t, a, K(w, Semicolon, u)))), n) == if x == n then Some(u) else None
    ensures TypeMember(Id(n, One(w, t, a, K(w, Semicolon, u))), n) == Some(u)
    ensures TypeMember(K(w, KW_static, Id(n, One(w, t, a, K(w, Semicolon, u)))), n) == None
    ensures TypeMember(Id(n, One(w, t, a, K(w, LCurly, u))), n) == None
  {
    hide K, Id, CountedParameters, One, Type;
    ParametersWritten(w, t, a, t, a, K(w, Semicolon, u));
    ParametersWritten(w, t, a, t, a, K(w, LCurly, u));
    ListStarts(w, t, a, t, a, K(w, Semicolon, u));
    ListStarts(w, t, a, t, a, K(w, LCurly, u));
  }

  /** `T a;` and `T f(T a) const;`, static or not. */
  lemma TypedMembersWritten(w: Words, n: string, t: Stream, f: string, a: string, u: Stream)
    requires IsType(t) && !(StartsWith(t, n) && |t| > 1)
    ensures TypeMember(t + Id(f, K(w, Semicolon, u)), n) == Some(u)
    ensures TypeMember(t + Id(f, One(w, t, a, K(w, KW_const, K(w, Semicolon, u)))), n) == Some(u)
    ensures TypeMember(K(w, KW_static, t + Id(f, None0(w, K(w, Semicolon, u)))), n) == Some(u)
  {
    hide K, Id, CountedParameters, None0, One, Type, TypeMember, UsualMember;
    ParametersWritten(w, t, a, t, a, K(w, Semicolon, u));
    ParametersWritten(w, t, a, t, a, K(w, KW_const, K(w, Semicolon, u)));
    ListStarts(w, t, a, t, a, K(w, Semicolon, u));
    ListStarts(w, t, a, t, a, K(w, KW_const, K(w, Semicolon, u)));
    NotConstructor(w, n, t, f, K(w, Semicolon, u));
    NotConstructor(w, n, t, f, One(w, t, a, K(w, KW_const, K(w, Semicolon, u))));
    NotConstructor(w, n, t, f, None0(w, K(w, Semicolon, u)));
  }

  /** Neither a body nor an initial value is allowed. */
  lemma BodiesRefused(w: Words, n: string, t: Stream, f: string, u: Stream)
    requires IsType(t) && !(StartsWith(t, n) && |t| > 1)
    ensures TypeMember(t + Id(f, None0(w, K(w, LCurly, u))), n) == None && TypeMember(t + Id(f, K(w, Assign, u)), n) == None
  {
    hide K, Id, CountedParameters, None0, Type, TypeMember, UsualMember;
    ParametersWritten(w, t, f, t, f, K(w, LCurly, u));
    ListStarts(w, t, f, t, f, K(w, LCurly, u));
    NotConstructor(w, n, t, f, None0(w, K(w, LCurly, u)));
    NotConstructor(w, n, t, f, K(w, Assign, u));
  }

  lemma NotConstructor(w: Words, n: string, t: Stream, f: string, u: Stream)
    requires IsType(t) && !(StartsWith(t, n) && |t| > 1)
    ensures var s := t + Id(f, u);
            TypeMember(s, n) == TypedMember(s) && UsualMember(K(w, KW_static, s), n) == TypedMember(s) && Head(s) == Head(t) &&
            TypeMember(K(w, KW_static, s), n) == UsualMember(K(w, KW_static, s), n)
  {
    hide K, Id, TypedMember;
    var s := t + Id(f, u);
    assert Head(s) == Head(t) && HeadText(s) == HeadText(t);
    if |t| == 1 { assert Tail(s) == Id(f, u); }
  }

  // ---------- Namespaces and files ----------

  ghost predicate AreSections(items: Stream) {
    forall v: Stream :: Head(v) == RCurly ==> NamespaceItems(items + v) == Some(v)
  }

  lemma NoItems(v: Stream)
    requires Head(v) == RCurly
    ensures NamespaceItems(v) == Some(v)
  {
  }

  lemma SectionJoined(w: Words, visibility: Kind, ms: Stream, items: Stream, v: Stream)
    ensures K(w, visibility, K(w, Colon, ms + items)) + v == K(w, visibility, K(w, Colon, ms + (items + v))) && [] + v == v
    ensures items != [] ==> Head(items + v) == Head(items)
  {
  }

  lemma OneSection(w: Words, visibility: Kind, ms: Stream, v: Stream)
    requires visibility in {KW_public, KW_protected, KW_private, KW_internal, KW_ignore}
    requires AreMembers(ms) && SectionEnds(v)
    ensures NamespaceItems(K(w, visibility, K(w, Colon, ms + v))) == NamespaceItems(v)
  {
    hide K, SectionMembers;
    var s := K(w, visibility, K(w, Colon, ms + v));
    assert Section(s) == Some(v);
    hide Section;
    assert NamespaceItem(s) == Some(v);
  }

  /** `public: ms` for each of the visibilities, in whatever number. */
  lemma SectionsJoin(w: Words, visibility: Kind, ms: Stream, items: Stream)
    requires visibility in {KW_public, KW_protected, KW_private, KW_internal, KW_ignore}
    requires AreMembers(ms) && AreSections(items) && (items == [] || IsVisibility(Head(items)))
    ensures AreSections([]) && AreSections(K(w, visibility, K(w, Colon, ms + items)))
  {
    hide NamespaceItems, K, AreMembers;
    forall v: Stream | Head(v) == RCurly
      ensures NamespaceItems([] + v) == Some(v) && NamespaceItems(K(w, visibility, K(w, Colon, ms + items)) + v) == Some(v)
    {
      SectionJoined(w, visibility, ms, items, v);
      assert NamespaceItems(items + v) == Some(v);
      OneSection(w, visibility, ms, items + v);
      assert NamespaceItems(v) == Some(v) by { NoItems(v); }
    }
  }

  /** `namespace a::b { items }`, as a member, inside or not, and at the top of a file. */
  lemma NamespaceWritten(w: Words, a: string, b: string, items: Stream, u: Stream)
    requires AreSections(items)
    ensures var s := K(w, KW_namespace, Id(a, K(w, ColonColon, Id(b, K(w, LCurly, items + K(w, RCurly, u))))));
            Member(s) == TopLevel(s) == Member(K(w, KW_internal, s)) == TopLevel(K(w, KW_internal, s)) == Some(u)
  {
    hide K, Id, NamespaceItems;
    var s := K(w, KW_namespace, Id(a, K(w, ColonColon, Id(b, K(w, LCurly, items + K(w, RCurly, u))))));
    assert Path(Id(b, K(w, LCurly, items + K(w, RCurly, u)))) == Some(K(w, LCurly, items + K(w, RCurly, u)));
    assert Namespace(s) == Some(u);
    hide Namespace, Path;
    MembersByFirstToken(s);
    MembersByFirstToken(K(w, KW_internal, s));
    hide Member;
  }
}
