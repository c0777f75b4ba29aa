/** Declarations that hold no further declarations: imports, aliases, lifetimes, functions, logic blocks,
    constraints, adaptations, type functions, debug blocks. Each is modelled by the tokens it consumes,
    the errors it reports and the way its loops go on; the trees it builds are left out. Every one of
    them ends on every input, every whole declaration consumes something or reports an error, and none is
    reported exactly if the tokens are a piece of the grammar, which is then what was consumed. */
module LeafDeclarations {
  import opened Tokens
  import opened Diagnostics
  import opened TokenBuffer
  import opened Options
  import opened TypeParser
  import opened Progress
  import opened Grammar
  import PipelineParser

  // ---------- Pieces of declarations ----------

  // ---------- In the middle of a list ----------

  ghost predicate GoesOn(p: Parser, more: bool, n: nat, whole: Option<Counted>, errors: nat)
    reads p, p.diag
  {
    Roomy(p.source, p.end) && errors < MAX_ERRORS ==>
      whole == if p.diag.errorCount != errors then None
               else if more then MoreParameters(p.View(), n) else Some(Counted(n, p.View()))
  }

  ghost predicate UsesOn(p: Parser, more: bool, seen: set<string>, n: nat, whole: Option<Counted>, errors: nat)
    reads p, p.diag
  {
    Roomy(p.source, p.end) && errors < MAX_ERRORS ==>
      whole == if p.diag.errorCount != errors then None
               else if more then MoreUsedReturns(p.View(), seen, n) else Some(Counted(n, p.View()))
  }

  ghost predicate Lists(p: Parser, more: bool, separator: Kind, whole: Option<Stream>, errors: nat)
    reads p, p.diag
  {
    errors <= p.diag.errorCount && Goes(p, if more then Names(p.View(), separator) else Some(p.View()), whole, errors)
  }

  /** Modifiers in front of a member; tells whether `comptime` is among them. */
  method CollectModifiers(p: Parser) returns (comptime: bool)
    requires Ready(p)
    modifies p, p.diag
    ensures Onward(p, old(Left(p)), old(p.diag.errorCount))
    ensures p.diag.errorCount == old(p.diag.errorCount)
    ensures p.diag.errorCount < MAX_ERRORS ==> (p.View(), comptime) == Modifiers(old(p.View()))
  {
    hide Parser.Valid, Parser.View, Left, CanBeLeft, PlaceAt, Roomy;
    comptime := false;
    while !p.diag.ReachedLimit()
      invariant Onward(p, old(Left(p)), old(p.diag.errorCount))
      invariant p.diag.errorCount == old(p.diag.errorCount)
      invariant Modifiers(old(p.View())) == (Modifiers(p.View()).0, comptime || Modifiers(p.View()).1)
      decreases Left(p)
    {
      if p.Check(KW_comptime) {
        comptime := true;
      } else if !p.Check(KW_static) && !p.Check(KW_explicit) && !p.Check(KW_external) {
        return;
      }
      var _ := Take(p);
    }
  }

  method ParsePriorityLevel(p: Parser)
    requires Ready(p)
    modifies p, p.diag
    ensures Onward(p, old(Left(p)), old(p.diag.errorCount)) && (old(p.current).kind != Eof ==> Left(p) < old(Left(p)))
    ensures old(p.Check(KW_priority)) ==> Behind(p, PriorityHeader(old(p.View())), old(p.diag.errorCount))
  {
    hide Parser.Valid, Parser.View, Left, CanBeLeft, PlaceAt, Roomy, PriorityLevel;
    var _ := Take(p);
    ParsePriorityRest(p);
  }

  method ParsePriorityRest(p: Parser)
    requires Ready(p)
    modifies p, p.diag
    ensures Advanced(p, old(Left(p)), old(p.diag.errorCount))
    ensures Behind(p, PriorityLevel(old(p.View())), old(p.diag.errorCount))
  {
    hide Parser.Valid, Parser.View, Left, CanBeLeft, PlaceAt, Roomy, Tok;
    var _ := Demand(p, LParen, "expected '(' after 'priority'");
    var level := Demand(p, Identifier, "expected priority level name");
    if level.text !in {"critical", "high", "normal", "low", "background"} {
      ErrorAt(p, level.loc, "unknown priority level");
    }
    var _ := Demand(p, RParen, "expected ')' after priority level");
    var _ := Demand(p, Colon, "expected ':' after priority section header");
  }

  method ParseCardinalityValue(p: Parser)
    requires Ready(p)
    modifies p, p.diag
    ensures Advanced(p, old(Left(p)), old(p.diag.errorCount))
    ensures Behind(p, Cardinality(old(p.View())), old(p.diag.errorCount))
  {
    hide Parser.Valid, Parser.View, Left, CanBeLeft, PlaceAt, Roomy, IsInt64;
    var number := Demand(p, IntegerLiteral, "expected cardinality value");
    if !IsInt64(number.text) {
      ErrorAt(p, number.loc, "invalid cardinality integer literal");
    }
    if p.Check(Identifier) && p.current.text in {"k", "K", "M", "m"} {
      var _ := Take(p);
    }
  }

  method ParseAccessPattern(p: Parser)
    requires Ready(p)
    modifies p, p.diag
    ensures Advanced(p, old(Left(p)), old(p.diag.errorCount))
    ensures Behind(p, Access(old(p.View())), old(p.diag.errorCount))
  {
    hide Parser.Valid, Parser.View, Left, CanBeLeft, PlaceAt, Roomy;
    var mode := Demand(p, Identifier, "expected access pattern name");
    if mode.text !in {"streaming", "random", "tiled", "gather_scatter"} {
      ErrorAt(p, mode.loc, "unknown access pattern");
    }
    if mode.text == "tiled" {
      var sized := Accept(p, Comma);
      if sized {
        var size := Demand(p, IntegerLiteral, "expected tile size after 'tiled,'");
        if ParseInt(size.text).None? || ParseInt(size.text) == Some(0) {
          ErrorAt(p, size.loc, "tile size must be a positive integer");
        }
      }
    }
  }

  method ParseHints(p: Parser)
    requires Ready(p)
    modifies p, p.diag
    ensures Onward(p, old(Left(p)), old(p.diag.errorCount))
    ensures Behind(p, Hints(old(p.View())), old(p.diag.errorCount))
  {
    hide Parser.Valid, Parser.View, Left, CanBeLeft, PlaceAt, Roomy, Hint;
    while p.Check(Identifier) && IsHint(p.current.text) && !p.diag.ReachedLimit()
      invariant Onward(p, old(Left(p)), old(p.diag.errorCount))
      invariant Goes(p, Hints(p.View()), Hints(old(p.View())), old(p.diag.errorCount))
      decreases Left(p)
    {
      ParseHint(p);
      var more := HintFollows(p, Comma);
      if !more {
        return;
      }
      var _ := Take(p);
    }
  }

  /** The current token is `before` and the next one names a hint. */
  method HintFollows(p: Parser, before: Kind) returns (yes: bool)
    requires Ready(p)
    modifies p
    ensures Onward(p, old(Left(p)), old(p.diag.errorCount)) && p.current == old(p.current) && p.View() == old(p.View())
    ensures yes == (Head(p.View()) == before && StartsHint(Tail(p.View())))
  {
    hide Parser.Valid, Parser.View, Left, CanBeLeft, PlaceAt, Roomy;
    yes := false;
    if p.Check(before) {
      var next := p.PeekNext();
      yes := next.kind == Identifier && IsHint(next.text);
    }
  }

  method ParseHint(p: Parser)
    requires Ready(p)
    modifies p, p.diag
    ensures Onward(p, old(Left(p)), old(p.diag.errorCount)) && (old(p.current).kind != Eof ==> Left(p) < old(Left(p)))
    ensures old(StartsHint(p.View())) ==> Behind(p, Hint(old(p.View())), old(p.diag.errorCount))
  {
    hide Parser.Valid, Parser.View, Left, CanBeLeft, PlaceAt, Roomy, Cardinality, Access;
    var hint := Take(p);
    if hint.text == "cardinality" {
      var _ := Demand(p, LParen, "expected '(' after 'cardinality'");
      ParseCardinalityValue(p);
      var range := Accept(p, DotDot);
      if range && p.Check(IntegerLiteral) {
        ParseCardinalityValue(p);
      }
      var _ := Demand(p, RParen, "expected ')' after cardinality");
    } else if hint.text == "access" {
      var _ := Demand(p, LParen, "expected '(' after 'access'");
      ParseAccessPattern(p);
      var _ := Demand(p, RParen, "expected ')' after access pattern");
    }
  }

  /** `Type name` pairs separated by commas, up to a closing parenthesis; tells how many. */
  method ParseParameters(p: Parser) returns (count: nat)
    requires Ready(p)
    modifies p, p.diag
    ensures Onward(p, old(Left(p)), old(p.diag.errorCount))
    ensures Counts(p, count, Parameters(old(p.View())), old(p.diag.errorCount))
  {
    hide Parser.Valid, Parser.View, Left, CanBeLeft, PlaceAt, Roomy, Type;
    count := 0;
    var more := !p.Check(RParen);
    while more
      invariant Onward(p, old(Left(p)), old(p.diag.errorCount))
      invariant GoesOn(p, more, count, Parameters(old(p.View())), old(p.diag.errorCount))
      decreases Left(p), more
    {
      TakeType(p);
      var _ := Demand(p, Identifier, "expected parameter name");
      count := count + 1;
      more := Accept(p, Comma);
    }
  }

  method ParseParameterList(p: Parser) returns (count: nat)
    requires Ready(p)
    modifies p, p.diag
    ensures Advanced(p, old(Left(p)), old(p.diag.errorCount))
    ensures Counts(p, count, CountedParameters(old(p.View())), old(p.diag.errorCount))
  {
    hide Parser.Valid, Parser.View, Left, CanBeLeft, PlaceAt, Roomy, Parameters;
    var _ := Demand(p, LParen, "expected '(' in declaration");
    count := ParseParameters(p);
    var _ := Demand(p, RParen, "expected ')' in declaration");
  }

  /** The same list where a missing comma is an error and a stall guard drives the loop. */
  method ParseGuardedParameters(p: Parser)
    requires Ready(p)
    modifies p, p.diag
    ensures Onward(p, old(Left(p)), old(p.diag.errorCount))
    ensures Behind(p, GuardedParameters(old(p.View())), old(p.diag.errorCount))
  {
    hide Parser.Valid, Parser.View, Left, CanBeLeft, PlaceAt, Roomy, Type;
    while !p.Check(RParen) && !p.Check(Eof) && !p.diag.ReachedLimit()
      invariant Onward(p, old(Left(p)), old(p.diag.errorCount))
      invariant Goes(p, GuardedParameters(p.View()), GuardedParameters(old(p.View())), old(p.diag.errorCount))
      decreases Left(p)
    {
      var start := p.current.loc;
      ghost var before, errors := Left(p), p.diag.errorCount;
      TakeType(p);
      var _ := Demand(p, Identifier, "expected parameter name");
      if !p.Check(RParen) {
        var _ := Demand(p, Comma, "expected ',' or ')' in parameter list");
      }
      var _ := ForceProgress(p, start, before, errors);
    }
  }

  method ParseUsedReturnsClause(p: Parser) returns (count: nat)
    requires Ready(p)
    modifies p, p.diag
    ensures Advanced(p, old(Left(p)), old(p.diag.errorCount))
    ensures old(p.Check(KW_with)) ==> Counts(p, count, UsedReturnsClause(old(p.View())), old(p.diag.errorCount))
  {
    hide Parser.Valid, Parser.View, Left, CanBeLeft, PlaceAt, Roomy, UsedList;
    var with := Take(p);
    count := 0;
    if !(p.Check(Identifier) && p.current.text == "returns") {
      p.Error("expected 'returns' after 'with'");
      return;
    }
    var _ := Take(p);
    count := ParseUsedList(p);
    if count == 0 {
      ErrorAt(p, with.loc, "'with returns()' must name at least one return parameter or '_'");
    }
  }

  method ParseUsedList(p: Parser) returns (count: nat)
    requires Ready(p)
    modifies p, p.diag
    ensures Advanced(p, old(Left(p)), old(p.diag.errorCount))
    ensures Counts(p, count, UsedList(old(p.View())), old(p.diag.errorCount))
  {
    hide Parser.Valid, Parser.View, Left, CanBeLeft, PlaceAt, Roomy, UsedReturns;
    var _ := Demand(p, LParen, "expected '(' after 'with returns'");
    count := ParseUsedReturns(p);
    var _ := Demand(p, RParen, "expected ')' after 'with returns(...)'");
  }

  method ParseUsedReturns(p: Parser) returns (count: nat)
    requires Ready(p)
    modifies p, p.diag
    ensures Onward(p, old(Left(p)), old(p.diag.errorCount))
    ensures Counts(p, count, UsedReturns(old(p.View())), old(p.diag.errorCount))
  {
    hide Parser.Valid, Parser.View, Left, CanBeLeft, PlaceAt, Roomy;
    var seen: set<string> := {};
    count := 0;
    var more := !p.Check(RParen);
    while more
      invariant Onward(p, old(Left(p)), old(p.diag.errorCount))
      invariant UsesOn(p, more, seen, count, UsedReturns(old(p.View())), old(p.diag.errorCount))
      decreases Left(p), more
    {
      if !p.Check(Identifier) {
        p.Error("expected return parameter name or '_' in 'with returns(...)'");
        return;
      }
      var name := Take(p);
      count := count + 1;
      if name.text != "_" {
        if name.text in seen {
          ErrorAt(p, name.loc, "'with returns(...)' lists a name more than once");
        }
        seen := seen + {name.text};
      }
      more := Accept(p, Comma);
    }
  }

  method ParseReturnBinding(p: Parser)
    requires Ready(p)
    modifies p, p.diag
    ensures Advanced(p, old(Left(p)), old(p.diag.errorCount))
    ensures Behind(p, ReturnBinding(old(p.View())), old(p.diag.errorCount))
  {
    hide Parser.Valid, Parser.View, Left, CanBeLeft, PlaceAt, Roomy;
    var several := Accept(p, LParen);
    if several {
      ghost var s, e := p.View(), p.diag.errorCount;
      var more := !p.Check(RParen);
      while more
        invariant Onward(p, old(Left(p)), old(p.diag.errorCount))
        invariant Lists(p, more, Comma, if Head(s) == RParen then Some(s) else Names(s, Comma), e)
        decreases Left(p), more
      {
        var _ := Demand(p, Identifier, "expected identifier in return binding");
        more := Accept(p, Comma);
      }
      var _ := Demand(p, RParen, "expected ')' after return binding");
    } else {
      var _ := Demand(p, Identifier, "expected identifier after '->' in return binding");
    }
  }

  /** A name with `::` parts; a `::` with no name behind it is left alone. */
  method ParseQualifiedFuncRef(p: Parser)
    requires Ready(p)
    modifies p, p.diag
    ensures Advanced(p, old(Left(p)), old(p.diag.errorCount))
    ensures Behind(p, FunctionRef(old(p.View())), old(p.diag.errorCount))
  {
    hide Parser.Valid, Parser.View, Left, CanBeLeft, PlaceAt, Roomy;
    var _ := Demand(p, Identifier, "expected function name");
    var more := Follows(p, ColonColon, Identifier);
    while more
      invariant Advanced(p, old(Left(p)), old(p.diag.errorCount)) && (more ==> p.Check(ColonColon))
      invariant more == (Head(p.View()) == ColonColon && Second(p.View()) == Identifier)
      invariant Goes(p, Some(MoreParts(p.View())), FunctionRef(old(p.View())), old(p.diag.errorCount))
      decreases Left(p)
    {
      var _ := Take(p);
      var _ := Take(p);
      more := Follows(p, ColonColon, Identifier);
    }
  }

  /** The body of a member function, which the language prohibits: skipped to its closing brace. */
  method SkipBody(p: Parser)
    requires Ready(p)
    modifies p, p.diag
    ensures Advanced(p, old(Left(p)), old(p.diag.errorCount))
    ensures Behind(p, None, old(p.diag.errorCount))
  {
    hide Parser.Valid, Parser.View, Left, CanBeLeft, PlaceAt, Roomy;
    p.Error("member function bodies are prohibited in Topo (C001)");
    var depth := 1;
    var _ := Take(p);
    while !p.Check(Eof) && depth > 0
      invariant Advanced(p, old(Left(p)), old(p.diag.errorCount))
      invariant Behind(p, None, old(p.diag.errorCount))
      decreases Left(p)
    {
      if p.Check(LCurly) {
        depth := depth + 1;
      }
      if p.Check(RCurly) {
        depth := depth - 1;
      }
      var _ := Take(p);
    }
  }

  // ---------- Imports, aliases, lifetimes ----------

  method ParseImport(p: Parser)
    requires Ready(p)
    modifies p, p.diag
    ensures Advanced(p, old(Left(p)), old(p.diag.errorCount))
    ensures Behind(p, Import(old(p.View())), old(p.diag.errorCount))
  {
    hide Parser.Valid, Parser.View, Left, CanBeLeft, PlaceAt, Roomy, Names, ImportSelection;
    var _ := Demand(p, KW_import, "expected 'import'");
    ParseImportPath(p);
    ParseImportSelection(p);
    var _ := Demand(p, Semicolon, "expected ';' after import statement");
  }

  method ParseImportPath(p: Parser)
    requires Ready(p)
    modifies p, p.diag
    ensures Onward(p, old(Left(p)), old(p.diag.errorCount))
    ensures Behind(p, Names(old(p.View()), Slash), old(p.diag.errorCount))
  {
    hide Parser.Valid, Parser.View, Left, CanBeLeft, PlaceAt, Roomy;
    var _ := Demand(p, Identifier, "expected module name after 'import'");
    var more := Accept(p, Slash);
    while more
      invariant Onward(p, old(Left(p)), old(p.diag.errorCount))
      invariant Lists(p, more, Slash, Names(old(p.View()), Slash), old(p.diag.errorCount))
      decreases Left(p), more
    {
      var _ := Demand(p, Identifier, "expected identifier after '/' in import path");
      more := Accept(p, Slash);
    }
  }

  method ParseImportSelection(p: Parser)
    requires Ready(p)
    modifies p, p.diag
    ensures Onward(p, old(Left(p)), old(p.diag.errorCount))
    ensures Behind(p, ImportSelection(old(p.View())), old(p.diag.errorCount))
  {
    hide Parser.Valid, Parser.View, Left, CanBeLeft, PlaceAt, Roomy;
    var more := Accept(p, LCurly);
    if more {
      ghost var s, e := p.View(), p.diag.errorCount;
      while more
        invariant Onward(p, old(Left(p)), old(p.diag.errorCount))
        invariant Lists(p, more, Comma, Names(s, Comma), e)
        decreases Left(p), more
      {
        var _ := Demand(p, Identifier, "expected symbol name in import selection");
        more := Accept(p, Comma);
      }
      var _ := Demand(p, RCurly, "expected '}' after import symbol list");
    }
  }

  method ParseTypeAlias(p: Parser)
    requires Ready(p)
    modifies p, p.diag
    ensures Advanced(p, old(Left(p)), old(p.diag.errorCount))
    ensures Behind(p, TypeAlias(old(p.View())), old(p.diag.errorCount))
  {
    hide Parser.Valid, Parser.View, Left, CanBeLeft, PlaceAt, Roomy, Type;
    var _ := Demand(p, KW_using, "expected 'using'");
    if p.Check(Identifier) || IsStdlibToken(p.current.kind) {
      var _ := Take(p);
    } else {
      var _ := Demand(p, Identifier, "expected name after 'using'");
    }
    var _ := Demand(p, Assign, "expected '=' after name");
    TakeType(p);
    var _ := Demand(p, Semicolon, "expected ';' after type alias declaration");
  }

  method ParseLifetimeSpan(p: Parser)
    requires Ready(p)
    modifies p, p.diag
    ensures Advanced(p, old(Left(p)), old(p.diag.errorCount))
    ensures Behind(p, LifetimeSpan(old(p.View())), old(p.diag.errorCount))
  {
    hide Parser.Valid, Parser.View, Left, CanBeLeft, PlaceAt, Roomy, Name;
    TakeName(p);
    var ranged := Accept(p, DotDot);
    if ranged && p.Check(Identifier) {
      TakeName(p);
    }
  }

  method ParseLifetime(p: Parser)
    requires Ready(p)
    modifies p, p.diag
    ensures Advanced(p, old(Left(p)), old(p.diag.errorCount))
    ensures Behind(p, Lifetime(old(p.View())), old(p.diag.errorCount))
  {
    hide Parser.Valid, Parser.View, Left, CanBeLeft, PlaceAt, Roomy, LifetimeSpan, Tok;
    var _ := Take(p);
    var _ := Demand(p, Identifier, "expected lifetime name");
    var _ := Demand(p, Assign, "expected '=' after lifetime name");
    ParseLifetimeSpan(p);
    var _ := Demand(p, Semicolon, "expected ';' after lifetime declaration");
  }

  method ParseStdImportHead(p: Parser)
    requires Ready(p)
    modifies p, p.diag
    ensures Advanced(p, old(Left(p)), old(p.diag.errorCount))
    ensures Behind(p, StdImportHead(old(p.View())), old(p.diag.errorCount))
  {
    hide Parser.Valid, Parser.View, Left, CanBeLeft, PlaceAt, Roomy, Tok;
    var _ := Demand(p, Identifier, "expected 'std'");
    var _ := Demand(p, ColonColon, "expected '::'");
    var _ := Demand(p, KW_import, "expected 'import'");
    var _ := Demand(p, LParen, "expected '(' after 'std::import'");
  }

  method ParseStdImport(p: Parser)
    requires Ready(p)
    modifies p, p.diag
    ensures Advanced(p, old(Left(p)), old(p.diag.errorCount))
    ensures Behind(p, StdImport(old(p.View())), old(p.diag.errorCount))
  {
    hide Parser.Valid, Parser.View, Left, CanBeLeft, PlaceAt, Roomy, QualifiedName, Tok, StdImportHead;
    ParseStdImportHead(p);
    var _ := Demand(p, StringLiteral, "expected string literal for import path");
    var named := Accept(p, Comma);
    if named {
      TakeQualifiedName(p);
    }
    var _ := Demand(p, RParen, "expected ')'");
    var _ := Demand(p, Semicolon, "expected ';' after std::import");
  }

  method ParseInstantiate(p: Parser)
    requires Ready(p)
    modifies p, p.diag
    ensures Advanced(p, old(Left(p)), old(p.diag.errorCount))
    ensures Behind(p, Instantiate(old(p.View())), old(p.diag.errorCount))
  {
    hide Parser.Valid, Parser.View, Left, CanBeLeft, PlaceAt, Roomy, Type;
    var _ := Demand(p, KW_instantiate, "expected 'instantiate'");
    TakeType(p);
    var _ := Demand(p, Semicolon, "expected ';' after instantiate declaration");
  }

  // ---------- Functions ----------

  method ParseFnDeclCppStyle(p: Parser)
    requires Ready(p)
    modifies p, p.diag
    ensures Advanced(p, old(Left(p)), old(p.diag.errorCount))
    ensures Behind(p, CppFunction(old(p.View())), old(p.diag.errorCount))
  {
    hide Parser.Valid, Parser.View, Left, CanBeLeft, PlaceAt, Roomy, Type, Name, CountedParameters, Binding, Hints, Tok;
    TakeType(p);
    TakeName(p);
    var _ := ParseParameterList(p);
    var _ := Accept(p, KW_const);
    ParseBinding(p);
    var hints := HintFollows(p, Arrow);
    if hints {
      var _ := Take(p);
      ParseHints(p);
    }
    var _ := Demand(p, Semicolon, "expected ';' after function declaration");
  }

  method ParseBinding(p: Parser)
    requires Ready(p)
    modifies p, p.diag
    ensures Onward(p, old(Left(p)), old(p.diag.errorCount))
    ensures Behind(p, Binding(old(p.View())), old(p.diag.errorCount))
  {
    hide Parser.Valid, Parser.View, Left, CanBeLeft, PlaceAt, Roomy, QualifiedName;
    var bound := Accept(p, Assign);
    if bound {
      TakeQualifiedName(p);
    }
  }

  method ParseFnDeclRustStyle(p: Parser)
    requires Ready(p)
    modifies p, p.diag
    ensures Advanced(p, old(Left(p)), old(p.diag.errorCount))
    ensures Behind(p, RustFunction(old(p.View())), old(p.diag.errorCount))
  {
    hide Parser.Valid, Parser.View, Left, CanBeLeft, PlaceAt, Roomy, Name, CountedParameters, Returns, Binding, Tok;
    TakeName(p);
    var _ := ParseParameterList(p);
    var _ := Accept(p, KW_const);
    var _ := Demand(p, Arrow, "expected '->' for return type");
    ParseReturns(p);
    ParseBinding(p);
    var _ := Demand(p, Semicolon, "expected ';' after function declaration");
  }

  /** Return type or parameters, hints, and the clause that selects some of the parameters. */
  method ParseReturns(p: Parser)
    requires Ready(p)
    modifies p, p.diag
    ensures Onward(p, old(Left(p)), old(p.diag.errorCount))
    ensures Behind(p, Returns(old(p.View())), old(p.diag.errorCount))
  {
    hide Parser.Valid, Parser.View, Left, CanBeLeft, PlaceAt, Roomy, Type, CountedParameters, Hints, Selection;
    var several := p.Check(LParen);
    var params := 0;
    if p.Check(Identifier) && IsHint(p.current.text) {
      ParseHints(p);
    } else if several {
      params := ParseParameterList(p);
    } else {
      TakeType(p);
    }
    var hints := HintFollows(p, Comma);
    if hints {
      var _ := Take(p);
      ParseHints(p);
    }
    if p.Check(KW_with) {
      ParseSelection(p, several, params);
    }
  }

  method ParseSelection(p: Parser, several: bool, params: nat)
    requires Ready(p)
    modifies p, p.diag
    ensures Advanced(p, old(Left(p)), old(p.diag.errorCount))
    ensures old(p.Check(KW_with)) ==> Behind(p, Selection(old(p.View()), several, params), old(p.diag.errorCount))
  {
    hide Parser.Valid, Parser.View, Left, CanBeLeft, PlaceAt, Roomy, UsedReturnsClause;
    var start := p.current.loc;
    if !several {
      p.Error("'with returns(...)' clause is only valid on multi-return functions");
    }
    var count := ParseUsedReturnsClause(p);
    if several && count > params {
      ErrorAt(p, start, "'with returns(...)' lists more items than there are return parameters");
    }
  }

  method ParseOperator(p: Parser)
    requires Ready(p)
    modifies p, p.diag
    ensures Advanced(p, old(Left(p)), old(p.diag.errorCount))
    ensures Behind(p, Operator(old(p.View())), old(p.diag.errorCount))
  {
    hide Parser.Valid, Parser.View, Left, CanBeLeft, PlaceAt, Roomy, CountedParameters, OperatorRest, IsOverloadable, Tok;
    var _ := Demand(p, KW_fn, "expected 'fn'");
    var _ := Demand(p, KW_operator, "expected 'operator'");
    if IsOverloadable(p.current.kind) {
      var _ := Take(p);
    } else {
      p.Error("expected overloadable operator after 'operator'");
    }
    var _ := ParseParameterList(p);
    ParseOperatorRest(p);
  }

  method ParseOperatorRest(p: Parser)
    requires Ready(p)
    modifies p, p.diag
    ensures Advanced(p, old(Left(p)), old(p.diag.errorCount))
    ensures Behind(p, OperatorRest(old(p.View())), old(p.diag.errorCount))
  {
    hide Parser.Valid, Parser.View, Left, CanBeLeft, PlaceAt, Roomy, Type, Binding, Tok;
    var _ := Demand(p, Arrow, "expected '->' for return type");
    TakeType(p);
    ParseBinding(p);
    var _ := Demand(p, Semicolon, "expected ';' after operator declaration");
  }

  method ParseHandler(p: Parser)
    requires Ready(p)
    modifies p, p.diag
    ensures Advanced(p, old(Left(p)), old(p.diag.errorCount))
    ensures Behind(p, Handler(old(p.View())), old(p.diag.errorCount))
  {
    hide Parser.Valid, Parser.View, Left, CanBeLeft, PlaceAt, Roomy, Type, Name, CountedParameters, Tok;
    var start := p.current.loc;
    var _ := Demand(p, KW_handler, "expected 'handler'");
    TakeName(p);
    var count := ParseParameterList(p);
    if count > 1 {
      ErrorAt(p, start, "a handler takes a single input value");
    }
    var _ := Demand(p, Arrow, "expected '->' before handler output type");
    TakeType(p);
    var _ := Demand(p, Semicolon, "expected ';' after handler declaration");
  }

  method ParseComptimeFn(p: Parser)
    requires Ready(p)
    modifies p, p.diag
    ensures Advanced(p, old(Left(p)), old(p.diag.errorCount))
    ensures old(p.Check(KW_fn)) ==> Behind(p, ComptimeFunction(old(p.View())), old(p.diag.errorCount))
  {
    hide Parser.Valid, Parser.View, Left, CanBeLeft, PlaceAt, Roomy, Type, Expression, GuardedParameters;
    var _ := Take(p);
    var _ := Demand(p, Identifier, "expected function name after 'comptime fn'");
    var _ := Demand(p, LParen, "expected '(' after comptime fn name");
    ParseGuardedParameters(p);
    var _ := Demand(p, RParen, "expected ')' after parameter list");
    var _ := Demand(p, Arrow, "expected '->' after comptime fn parameters");
    TakeType(p);
    var _ := Demand(p, LCurly, "expected '{' after return type");
    TakeExpression(p);
    var _ := Demand(p, RCurly, "expected '}' after comptime fn body");
  }

  // ---------- Logic blocks ----------

  method ParseFnLogicBlock(p: Parser)
    requires Ready(p)
    modifies p, p.diag
    ensures Advanced(p, old(Left(p)), old(p.diag.errorCount))
    ensures Behind(p, LogicBlock(old(p.View())), old(p.diag.errorCount))
  {
    hide Parser.Valid, Parser.View, Left, CanBeLeft, PlaceAt, Roomy, Name, Edges, Operations, StartsPipeline, Tok;
    var _ := Demand(p, KW_fn, "expected 'fn'");
    TakeName(p);
    var _ := Demand(p, LCurly, "expected '{' after fn name");
    var pipeline := LooksLikePipeline(p);
    if pipeline {
      TakePipelineEdges(p);
    } else {
      ParseOperations(p);
    }
    CloseBlock(p, "expected '}' to close fn block");
  }

  method CloseBlock(p: Parser, message: string)
    requires Ready(p)
    modifies p, p.diag
    ensures Advanced(p, old(Left(p)), old(p.diag.errorCount))
    ensures Behind(p, Tok(old(p.View()), RCurly), old(p.diag.errorCount))
  {
    hide Parser.Valid, Parser.View, Left, CanBeLeft, PlaceAt, Roomy;
    var closed := Accept(p, RCurly);
    if !closed {
      p.Error(message);
    }
  }

  method ParseFlow(p: Parser)
    requires Ready(p)
    modifies p, p.diag
    ensures Advanced(p, old(Left(p)), old(p.diag.errorCount))
    ensures Behind(p, Flow(old(p.View())), old(p.diag.errorCount))
  {
    hide Parser.Valid, Parser.View, Left, CanBeLeft, PlaceAt, Roomy, Name, Edges, Tok;
    var _ := Demand(p, KW_flow, "expected 'flow'");
    TakeName(p);
    var _ := Demand(p, LCurly, "expected '{' after flow name");
    TakePipelineEdges(p);
    CloseBlock(p, "expected '}' to close flow");
  }

  method ParseOperations(p: Parser)
    requires Ready(p)
    modifies p, p.diag
    ensures Onward(p, old(Left(p)), old(p.diag.errorCount))
    ensures Behind(p, Operations(old(p.View())), old(p.diag.errorCount))
  {
    hide Parser.Valid, Parser.View, Left, CanBeLeft, PlaceAt, Roomy, Operation;
    while !p.Check(RCurly) && !p.Check(Eof) && !p.diag.ReachedLimit()
      invariant Onward(p, old(Left(p)), old(p.diag.errorCount))
      invariant Goes(p, Operations(p.View()), Operations(old(p.View())), old(p.diag.errorCount))
      decreases Left(p)
    {
      var start := p.current.loc;
      ghost var before, errors := Left(p), p.diag.errorCount;
      ParseOperation(p);
      var _ := ForceProgress(p, start, before, errors);
    }
  }

  method ParseOperation(p: Parser)
    requires Ready(p)
    modifies p, p.diag
    ensures Advanced(p, old(Left(p)), old(p.diag.errorCount))
    ensures Behind(p, Operation(old(p.View())), old(p.diag.errorCount))
  {
    hide Parser.Valid, Parser.View, Left, CanBeLeft, PlaceAt, Roomy, Stage, Expression, Invocation;
    ParseStage(p);
    var assigns := Follows(p, Identifier, Assign);
    if assigns {
      var _ := Take(p);
      var _ := Take(p);
      TakeExpression(p);
      var _ := Demand(p, Semicolon, "expected ';' after assignment");
    } else {
      ParseInvocation(p);
    }
  }

  /** The optional `stage<N>`. */
  method ParseStage(p: Parser)
    requires Ready(p)
    modifies p, p.diag
    ensures Onward(p, old(Left(p)), old(p.diag.errorCount))
    ensures Behind(p, Stage(old(p.View())), old(p.diag.errorCount))
  {
    hide Parser.Valid, Parser.View, Left, CanBeLeft, PlaceAt, Roomy;
    var staged := Accept(p, KW_stage);
    if staged {
      var _ := Demand(p, LAngle, "expected '<' after 'stage'");
      if p.Check(Minus) {
        p.Error("stage number must be non-negative (S008)");
        var _ := Take(p);
        if p.Check(IntegerLiteral) {
          var _ := Take(p);
        }
      } else {
        var number := Demand(p, IntegerLiteral, "expected integer after 'stage<'");
        if ParseInt(number.text).None? && number.kind == IntegerLiteral {
          ErrorAt(p, number.loc, "stage number is not a valid non-negative integer");
        }
      }
      var _ := Demand(p, RAngle, "expected '>' after stage number");
    }
  }

  /** A call whose arguments are skipped, perhaps with a binding for what it returns. */
  method ParseInvocation(p: Parser)
    requires Ready(p)
    modifies p, p.diag
    ensures Advanced(p, old(Left(p)), old(p.diag.errorCount))
    ensures Behind(p, Invocation(old(p.View())), old(p.diag.errorCount))
  {
    hide Parser.Valid, Parser.View, Left, CanBeLeft, PlaceAt, Roomy, FunctionRef, ReturnBinding;
    ParseQualifiedFuncRef(p);
    var _ := Demand(p, LParen, "expected '(' in operation");
    ghost var s, e := p.View(), p.diag.errorCount;
    while !p.Check(RParen) && !p.Check(Semicolon) && !p.Check(Eof)
      invariant Onward(p, old(Left(p)), old(p.diag.errorCount))
      invariant p.diag.errorCount == e && BehindArguments(p.View()) == BehindArguments(s)
      decreases Left(p)
    {
      var _ := Take(p);
    }
    var _ := Demand(p, RParen, "expected ')' in operation");
    var bound := Accept(p, Arrow);
    if bound {
      ParseReturnBinding(p);
    }
    var _ := Demand(p, Semicolon, "expected ';' after operation");
  }

  // ---------- Constraints, adaptations, type functions ----------

  method ParseConstraint(p: Parser)
    requires Ready(p)
    modifies p, p.diag
    ensures Advanced(p, old(Left(p)), old(p.diag.errorCount))
    ensures Behind(p, Constraint(old(p.View())), old(p.diag.errorCount))
  {
    hide Parser.Valid, Parser.View, Left, CanBeLeft, PlaceAt, Roomy, ConstraintMembers, Tok;
    var _ := Demand(p, KW_constraint, "expected 'constraint'");
    var _ := Demand(p, Identifier, "expected constraint name");
    var derived := Accept(p, Colon);
    if derived {
      var _ := Demand(p, Identifier, "expected parent constraint name");
    }
    var _ := Demand(p, LCurly, "expected '{' after constraint declaration");
    ParseConstraintMembers(p);
    var _ := Demand(p, RCurly, "expected '}' after constraint body");
  }

  method ParseConstraintMembers(p: Parser)
    requires Ready(p)
    modifies p, p.diag
    ensures Onward(p, old(Left(p)), old(p.diag.errorCount))
    ensures Behind(p, ConstraintMembers(old(p.View())), old(p.diag.errorCount))
  {
    hide Parser.Valid, Parser.View, Left, CanBeLeft, PlaceAt, Roomy, ConstraintMember;
    while !p.Check(RCurly) && !p.Check(Eof) && !p.diag.ReachedLimit()
      invariant Onward(p, old(Left(p)), old(p.diag.errorCount))
      invariant Goes(p, ConstraintMembers(p.View()), ConstraintMembers(old(p.View())), old(p.diag.errorCount))
      decreases Left(p)
    {
      var start := p.current.loc;
      ghost var before, errors := Left(p), p.diag.errorCount;
      ParseConstraintMember(p);
      var _ := ForceProgress(p, start, before, errors);
    }
  }

  method ParseConstraintMember(p: Parser)
    requires Ready(p)
    modifies p, p.diag
    ensures Advanced(p, old(Left(p)), old(p.diag.errorCount))
    ensures Behind(p, ConstraintMember(old(p.View())), old(p.diag.errorCount))
  {
    hide Parser.Valid, Parser.View, Left, CanBeLeft, PlaceAt, Roomy, Type, GuardedParameters;
    TakeType(p);
    var _ := Demand(p, Identifier, "expected member name in constraint");
    var isFunction := Accept(p, LParen);
    if isFunction {
      ParseGuardedParameters(p);
      var _ := Demand(p, RParen, "expected ')' after parameter list");
    }
    var _ := Demand(p, Semicolon, "expected ';' after constraint member");
  }

  method ParseAdapt(p: Parser)
    requires Ready(p)
    modifies p, p.diag
    ensures Advanced(p, old(Left(p)), old(p.diag.errorCount))
    ensures Behind(p, Adapt(old(p.View())), old(p.diag.errorCount))
  {
    hide Parser.Valid, Parser.View, Left, CanBeLeft, PlaceAt, Roomy, Type, Mappings, Tok;
    var _ := Demand(p, KW_adapt, "expected 'adapt'");
    var _ := Demand(p, Identifier, "expected constraint name after 'adapt'");
    var _ := Demand(p, KW_for, "expected 'for' after constraint name in adapt");
    TakeType(p);
    var _ := Demand(p, LCurly, "expected '{' after adapt declaration");
    ParseAdaptMappings(p);
    var _ := Demand(p, RCurly, "expected '}' after adapt body");
  }

  method ParseAdaptMappings(p: Parser)
    requires Ready(p)
    modifies p, p.diag
    ensures Onward(p, old(Left(p)), old(p.diag.errorCount))
    ensures Behind(p, Mappings(old(p.View())), old(p.diag.errorCount))
  {
    hide Parser.Valid, Parser.View, Left, CanBeLeft, PlaceAt, Roomy, Mapping;
    while !p.Check(RCurly) && !p.Check(Eof) && !p.diag.ReachedLimit()
      invariant Onward(p, old(Left(p)), old(p.diag.errorCount))
      invariant Goes(p, Mappings(p.View()), Mappings(old(p.View())), old(p.diag.errorCount))
      decreases Left(p)
    {
      var start := p.current.loc;
      ghost var before, errors := Left(p), p.diag.errorCount;
      ParseAdaptMapping(p);
      var _ := ForceProgress(p, start, before, errors);
    }
  }

  method ParseAdaptMapping(p: Parser)
    requires Ready(p)
    modifies p, p.diag
    ensures Advanced(p, old(Left(p)), old(p.diag.errorCount))
    ensures Behind(p, Mapping(old(p.View())), old(p.diag.errorCount))
  {
    hide Parser.Valid, Parser.View, Left, CanBeLeft, PlaceAt, Roomy;
    var _ := Demand(p, Identifier, "expected member name in adapt mapping");
    var _ := Demand(p, Assign, "expected '=' in adapt mapping");
    var _ := Demand(p, Identifier, "expected target name in adapt mapping");
    var _ := Demand(p, Semicolon, "expected ';' after adapt mapping");
  }

  method ParseTypeFn(p: Parser)
    requires Ready(p)
    modifies p, p.diag
    ensures Advanced(p, old(Left(p)), old(p.diag.errorCount))
    ensures Behind(p, TypeFunction(old(p.View())), old(p.diag.errorCount))
  {
    hide Parser.Valid, Parser.View, Left, CanBeLeft, PlaceAt, Roomy, TypeFunctionParameters, TypeFunctionBody, Tok;
    var _ := Demand(p, KW_typefn, "expected 'typefn'");
    var _ := Demand(p, Identifier, "expected typefn name");
    var _ := Demand(p, LParen, "expected '(' after typefn name");
    ParseTypeFnParameters(p);
    var _ := Demand(p, RParen, "expected ')' after typefn parameters");
    var _ := Demand(p, Arrow, "expected '->' after typefn parameters");
    var _ := Demand(p, KW_typename, "expected 'typename' as typefn return");
    ParseTypeFnBody(p);
  }

  method ParseTypeFnBody(p: Parser)
    requires Ready(p)
    modifies p, p.diag
    ensures Advanced(p, old(Left(p)), old(p.diag.errorCount))
    ensures Behind(p, TypeFunctionBody(old(p.View())), old(p.diag.errorCount))
  {
    hide Parser.Valid, Parser.View, Left, CanBeLeft, PlaceAt, Roomy, Tok, MatchArms;
    var _ := Demand(p, LCurly, "expected '{' after typefn return type");
    var _ := Demand(p, KW_match, "expected 'match' in typefn body");
    var _ := Demand(p, Identifier, "expected parameter name to match on");
    var _ := Demand(p, LCurly, "expected '{' after match target");
    ParseMatchArms(p);
    var _ := Demand(p, RCurly, "expected '}' to close match block");
    var _ := Demand(p, RCurly, "expected '}' to close typefn body");
  }

  method ParseTypeFnParameters(p: Parser)
    requires Ready(p)
    modifies p, p.diag
    ensures Onward(p, old(Left(p)), old(p.diag.errorCount))
    ensures Behind(p, TypeFunctionParameters(old(p.View())), old(p.diag.errorCount))
  {
    hide Parser.Valid, Parser.View, Left, CanBeLeft, PlaceAt, Roomy;
    while !p.Check(RParen) && !p.Check(Eof) && !p.diag.ReachedLimit()
      invariant Onward(p, old(Left(p)), old(p.diag.errorCount))
      invariant Goes(p, TypeFunctionParameters(p.View()), TypeFunctionParameters(old(p.View())), old(p.diag.errorCount))
      decreases Left(p)
    {
      var start := p.current.loc;
      ghost var before, errors := Left(p), p.diag.errorCount;
      var typed := Accept(p, KW_typename);
      if typed {
        var _ := Demand(p, Identifier, "expected parameter name");
      }
      if !p.Check(RParen) {
        var _ := Demand(p, Comma, "expected ',' or ')' in typefn parameter list");
      }
      var _ := ForceProgress(p, start, before, errors);
    }
  }

  method ParseMatchArms(p: Parser)
    requires Ready(p)
    modifies p, p.diag
    ensures Onward(p, old(Left(p)), old(p.diag.errorCount))
    ensures Behind(p, MatchArms(old(p.View())), old(p.diag.errorCount))
  {
    hide Parser.Valid, Parser.View, Left, CanBeLeft, PlaceAt, Roomy, Type;
    while !p.Check(RCurly) && !p.Check(Eof) && !p.diag.ReachedLimit()
      invariant Onward(p, old(Left(p)), old(p.diag.errorCount))
      invariant Goes(p, MatchArms(p.View()), MatchArms(old(p.View())), old(p.diag.errorCount))
      decreases Left(p)
    {
      var start := p.current.loc;
      ghost var before, errors := Left(p), p.diag.errorCount;
      if p.Check(Identifier) && p.current.text == "_" {
        var _ := Take(p);
      } else {
        TakeType(p);
      }
      var _ := Demand(p, FatArrow, "expected '=>' in match arm");
      TakeType(p);
      var _ := Accept(p, Comma);
      var _ := ForceProgress(p, start, before, errors);
    }
  }

  // ---------- Template parameters ----------

  method ParseTemplateParameters(p: Parser)
    requires Ready(p)
    modifies p, p.diag
    ensures Advanced(p, old(Left(p)), old(p.diag.errorCount))
    ensures Behind(p, TemplateParameters(old(p.View())), old(p.diag.errorCount))
  {
    hide Parser.Valid, Parser.View, Left, CanBeLeft, PlaceAt, Roomy, TemplateParameter;
    var _ := Demand(p, LAngle, "expected '<' after 'template'");
    var none := Accept(p, RAngle);
    if none {
      return;
    }
    var more := true;
    ghost var s, e := p.View(), p.diag.errorCount;
    while more
      invariant Onward(p, old(Left(p)), old(p.diag.errorCount))
      invariant e <= p.diag.errorCount && Goes(p, if more then TemplateParameterList(p.View()) else Some(p.View()), TemplateParameterList(s), e)
      decreases Left(p), more
    {
      more := ParseTemplateParameter(p);
      if more {
        more := Accept(p, Comma);
      }
    }
    var _ := Demand(p, RAngle, "expected '>' to close template parameter list");
  }

  /** One parameter; without one the parser recovers and the list ends. */
  method ParseTemplateParameter(p: Parser) returns (found: bool)
    requires Ready(p)
    modifies p, p.diag
    ensures Advanced(p, old(Left(p)), old(p.diag.errorCount))
    ensures Behind(p, TemplateParameter(old(p.View())), old(p.diag.errorCount))
    ensures !found ==> Behind(p, None, old(p.diag.errorCount))
  {
    hide Parser.Valid, Parser.View, Left, CanBeLeft, PlaceAt, Roomy, TypeParameter, ValueParameter, TemplateTemplateParameter, IsTypeStart;
    found := true;
    if p.Check(KW_typename) {
      ParseTypeParameter(p);
    } else if IsTypeStart(p.current.kind) {
      ParseValueParameter(p);
    } else if p.Check(KW_template) {
      ParseTemplateTemplateParameter(p);
    } else {
      Reject(p, "expected 'typename', type, or 'template' in template parameter list");
      found := false;
    }
  }

  method ParseTypeParameter(p: Parser)
    requires Ready(p)
    modifies p, p.diag
    ensures Advanced(p, old(Left(p)), old(p.diag.errorCount))
    ensures old(p.Check(KW_typename)) ==> Behind(p, TypeParameter(old(p.View())), old(p.diag.errorCount))
  {
    hide Parser.Valid, Parser.View, Left, CanBeLeft, PlaceAt, Roomy, Type;
    var _ := Take(p);
    var _ := Accept(p, Ellipsis);
    var _ := Demand(p, Identifier, "expected template parameter name");
    var constrained := Accept(p, Colon);
    if constrained {
      TakeType(p);
    }
    var defaulted := Accept(p, Assign);
    if defaulted {
      TakeType(p);
    }
  }

  method ParseValueParameter(p: Parser)
    requires Ready(p)
    modifies p, p.diag
    ensures Advanced(p, old(Left(p)), old(p.diag.errorCount))
    ensures Behind(p, ValueParameter(old(p.View())), old(p.diag.errorCount))
  {
    hide Parser.Valid, Parser.View, Left, CanBeLeft, PlaceAt, Roomy, Type;
    TakeType(p);
    var _ := Demand(p, Identifier, "expected non-type template parameter name");
    var defaulted := Accept(p, Assign);
    if defaulted {
      var value := Demand(p, IntegerLiteral, "expected default value for non-type template parameter");
      if ParseInt(value.text).None? {
        ErrorAt(p, value.loc, "invalid non-type template parameter default");
      }
    }
  }

  method ParseTemplateTemplateParameter(p: Parser)
    requires Ready(p)
    modifies p, p.diag
    ensures Advanced(p, old(Left(p)), old(p.diag.errorCount))
    ensures old(p.Check(KW_template)) ==> Behind(p, TemplateTemplateParameter(old(p.View())), old(p.diag.errorCount))
  {
    hide Parser.Valid, Parser.View, Left, CanBeLeft, PlaceAt, Roomy, BehindTypenames;
    var _ := Take(p);
    var _ := Demand(p, LAngle, "expected '<' in template template parameter");
    ParseTypenames(p);
    var _ := Demand(p, RAngle, "expected '>' in template template parameter");
    var _ := Demand(p, KW_class, "expected 'class' after template template parameter list");
    var _ := Demand(p, Identifier, "expected template template parameter name");
  }

  method ParseTypenames(p: Parser)
    requires Ready(p)
    modifies p
    ensures Onward(p, old(Left(p)), old(p.diag.errorCount)) && p.View() == BehindTypenames(old(p.View()))
  {
    hide Parser.Valid, Parser.View, Left, CanBeLeft, PlaceAt, Roomy;
    var more := true;
    while more
      invariant Onward(p, old(Left(p)), old(p.diag.errorCount))
      invariant BehindTypenames(old(p.View())) == if more then BehindTypenames(p.View()) else p.View()
      decreases Left(p), more
    {
      var typed := Accept(p, KW_typename);
      if typed && p.Check(Identifier) {
        var _ := Take(p);
      }
      more := Accept(p, Comma);
    }
  }

  // ---------- Debug blocks ----------

  method ParseDebug(p: Parser)
    requires Ready(p)
    modifies p, p.diag
    ensures Advanced(p, old(Left(p)), old(p.diag.errorCount))
    ensures Behind(p, Debug(old(p.View())), old(p.diag.errorCount))
  {
    hide Parser.Valid, Parser.View, Left, CanBeLeft, PlaceAt, Roomy, DebugItem, Tok;
    var _ := Take(p);
    var _ := Demand(p, Identifier, "expected target type name after 'debug'");
    var _ := Demand(p, LCurly, "expected '{' to open debug body");
    ghost var s, e := p.View(), p.diag.errorCount;
    while !p.Check(RCurly) && !p.Check(Eof) && !p.diag.ReachedLimit()
      invariant Onward(p, old(Left(p)), old(p.diag.errorCount))
      invariant e <= p.diag.errorCount && Goes(p, DebugItems(p.View()), DebugItems(s), e)
      decreases Left(p)
    {
      ParseDebugRound(p);
    }
    var _ := Demand(p, RCurly, "expected '}' to close debug body");
  }

  /** One round of the loop over the body: an item, and the guard behind it. What is no item costs an
      error and a token, and the token behind it as well where that stands at the same place. */
  method ParseDebugRound(p: Parser)
    requires Ready(p) && !p.Check(Eof) && !p.diag.ReachedLimit()
    modifies p, p.diag
    ensures Onward(p, old(Left(p)), old(p.diag.errorCount)) && Left(p) < old(Left(p))
    ensures old(!p.Check(Identifier)) ==> p.remaining == BehindJunk(old(p.remaining), p.end)
    ensures Behind(p, DebugItem(old(p.View())), old(p.diag.errorCount))
  {
    hide Parser.Valid, Parser.View, Left, CanBeLeft, PlaceAt, Roomy, DebugItem;
    var start := p.current.loc;
    ghost var before, errors := Left(p), p.diag.errorCount;
    StartIsFirst(p);
    ParseDebugItem(p);
    StartIsFirst(p);
    var _ := ForceProgress(p, start, before, errors);
  }

  /** What a round leaves of tokens that start with no word. */
  function BehindJunk(ts: seq<Token>, end: Location): seq<Token> {
    var rest := Rest(ts);
    if PipelineParser.FirstLoc(rest, end) == PipelineParser.FirstLoc(ts, end) then Rest(rest) else rest
  }

  method ParseDebugItem(p: Parser)
    requires Ready(p)
    modifies p, p.diag
    ensures Advanced(p, old(Left(p)), old(p.diag.errorCount))
    ensures old(!p.Check(Identifier)) ==> p.remaining == Rest(old(p.remaining))
    ensures Behind(p, DebugItem(old(p.View())), old(p.diag.errorCount))
  {
    hide Parser.Valid, Parser.View, Left, CanBeLeft, PlaceAt, Roomy, DebugView, InactiveRegion, Render, Tok;
    if !p.Check(Identifier) {
      SkipJunk(p, "expected 'view', 'summary', 'inactive_region', or 'render' in debug body");
      return;
    }
    var keyword := Take(p);
    if keyword.text == "view" {
      ParseView(p);
    } else if keyword.text == "summary" {
      var _ := Demand(p, StringLiteral, "expected string literal after 'summary'");
      var _ := Demand(p, Semicolon, "expected ';' after summary declaration");
    } else if keyword.text == "inactive_region" {
      ParseInactiveRegion(p);
    } else if keyword.text == "render" {
      ParseRender(p);
    } else {
      ErrorAt(p, keyword.loc, "unexpected word in debug body");
    }
  }

  method SkipJunk(p: Parser, message: string)
    requires Ready(p)
    modifies p, p.diag
    ensures Advanced(p, old(Left(p)), old(p.diag.errorCount)) && p.remaining == Rest(old(p.remaining))
    ensures Behind(p, None, old(p.diag.errorCount))
  {
    hide Parser.Valid, CanBeLeft, PlaceAt;
    p.Error(message);
    ghost var s := p.View();
    var _ := p.Advance();
    MovedOn(p, s);
  }

  method ParseInactiveRegion(p: Parser)
    requires Ready(p)
    modifies p, p.diag
    ensures Advanced(p, old(Left(p)), old(p.diag.errorCount))
    ensures Behind(p, InactiveRegion(old(p.View())), old(p.diag.errorCount))
  {
    hide Parser.Valid, Parser.View, Left, CanBeLeft, PlaceAt, Roomy, Slice;
    ParseDebugSlice(p);
    if p.Check(Identifier) && (p.current.text == "grayed" || p.current.text == "hidden") {
      var _ := Take(p);
    }
    var _ := Demand(p, Semicolon, "expected ';' after inactive_region declaration");
  }

  method ParseView(p: Parser)
    requires Ready(p)
    modifies p, p.diag
    ensures Advanced(p, old(Left(p)), old(p.diag.errorCount))
    ensures Behind(p, DebugView(old(p.View())), old(p.diag.errorCount))
  {
    hide Parser.Valid, Parser.View, Left, CanBeLeft, PlaceAt, Roomy, Slice;
    var _ := Demand(p, Identifier, "expected view name after 'view'");
    if p.Check(Identifier) && p.current.text == "from" {
      var _ := Take(p);
    } else {
      p.Error("expected 'from' between view name and expression");
    }
    ParseDebugSlice(p);
    var _ := Demand(p, Semicolon, "expected ';' after view declaration");
  }

  method ParseDebugSlice(p: Parser)
    requires Ready(p)
    modifies p, p.diag
    ensures Advanced(p, old(Left(p)), old(p.diag.errorCount))
    ensures Behind(p, Slice(old(p.View())), old(p.diag.errorCount))
  {
    hide Parser.Valid, Parser.View, Left, CanBeLeft, PlaceAt, Roomy, Bound;
    var _ := Demand(p, Identifier, "expected identifier");
    var sliced := Accept(p, LBracket);
    if sliced {
      ParseSliceBound(p);
      var _ := Demand(p, DotDot, "expected '..' between slice bounds");
      ParseSliceBound(p);
      var _ := Demand(p, RBracket, "expected ']' after slice end");
    }
  }

  method ParseSliceBound(p: Parser)
    requires Ready(p)
    modifies p, p.diag
    ensures Advanced(p, old(Left(p)), old(p.diag.errorCount))
    ensures Behind(p, Bound(old(p.View())), old(p.diag.errorCount))
  {
    hide Parser.Valid, Parser.View, Left, CanBeLeft, PlaceAt, Roomy;
    var bound := p.current;
    if p.Check(IntegerLiteral) {
      var _ := Take(p);
      if ParseInt(bound.text).None? {
        ErrorAt(p, bound.loc, "slice bound must be a non-negative integer");
      }
    } else {
      p.Error("expected integer literal for slice bound");
    }
  }

  method ParseRender(p: Parser)
    requires Ready(p)
    modifies p, p.diag
    ensures Onward(p, old(Left(p)), old(p.diag.errorCount))
    ensures Behind(p, Render(old(p.View())), old(p.diag.errorCount))
  {
    hide Parser.Valid, Parser.View, Left, CanBeLeft, PlaceAt, Roomy, RenderBody;
    if p.Check(Identifier) && p.current.text == "method" {
      var _ := Take(p);
      var _ := Demand(p, Assign, "expected '=' after 'method'");
      var _ := Demand(p, Identifier, "expected render method name after '='");
    }
    if !p.Check(LCurly) {
      p.Error("expected '{' to open render body");
      return;
    }
    SkipRenderBody(p);
  }

  /** The body of a render block is captured by counting braces. */
  method SkipRenderBody(p: Parser)
    requires Ready(p)
    modifies p, p.diag
    ensures Onward(p, old(Left(p)), old(p.diag.errorCount))
    ensures Behind(p, RenderBody(old(p.View()), 0), old(p.diag.errorCount))
  {
    hide Parser.Valid, Parser.View, Left, CanBeLeft, PlaceAt, Roomy;
    var depth := 0;
    var more := true;
    while more
      invariant Onward(p, old(Left(p)), old(p.diag.errorCount))
      invariant p.diag.errorCount == old(p.diag.errorCount)
      invariant RenderBody(old(p.View()), 0) == if more then RenderBody(p.View(), depth) else Some(p.View())
      decreases Left(p), more
    {
      if p.Check(Eof) {
        p.Error("unterminated render body");
        return;
      }
      if p.Check(LCurly) {
        depth := depth + 1;
      } else if p.Check(RCurly) {
        depth := depth - 1;
      }
      var _ := Take(p);
      more := depth > 0 && !p.Check(Eof);
    }
  }
}
