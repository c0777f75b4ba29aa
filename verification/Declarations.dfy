/** The declarations of a file that hold further declarations: namespaces, visibility sections, conditional
    members, types, templates. They call each other in circles. A call either comes with less to read than
    its caller had, or goes to a parser of lower rank; with that, and with the stall guards of the loops,
    parsing ends on every input, well-formed or not. As with the other declarations the trees are left out:
    the contracts say how far a parser gets, and that it reports no error exactly if the tokens are a piece of
    the grammar, which is then what it consumed. */
module Declarations {
  import opened Tokens
  import opened Diagnostics
  import opened TokenBuffer
  import opened Progress
  import opened Options
  import opened Grammar
  import opened LeafDeclarations
  import Lexing
  import LexerResults

  // ---------- Namespaces and their sections ----------

  method ParseNamespaceDecl(p: Parser)
    requires Ready(p)
    modifies p, p.diag
    ensures Advanced(p, old(Left(p)), old(p.diag.errorCount))
    ensures Behind(p, Namespace(old(p.View())), old(p.diag.errorCount))
    decreases Left(p), 30
  {
    hide Parser.Valid, Parser.View, Left, CanBeLeft, PlaceAt, Roomy, Path, NamespaceItems, Tok;
    var _ := Demand(p, KW_namespace, "expected 'namespace'");
    ParsePath(p);
    var _ := Demand(p, LCurly, "expected '{' after namespace path");
    ParseNamespaceItems(p);
    var _ := Demand(p, RCurly, "expected '}' to close namespace");
  }

  method ParseNamespaceItems(p: Parser)
    requires Ready(p)
    modifies p, p.diag
    ensures Onward(p, old(Left(p)), old(p.diag.errorCount))
    ensures Behind(p, NamespaceItems(old(p.View())), old(p.diag.errorCount))
    decreases Left(p), 25
  {
    hide Parser.Valid, Parser.View, Left, CanBeLeft, PlaceAt, Roomy, NamespaceItem;
    while !p.Check(RCurly) && !p.Check(Eof) && !p.diag.ReachedLimit()
      invariant Onward(p, old(Left(p)), old(p.diag.errorCount))
      invariant Goes(p, NamespaceItems(p.View()), NamespaceItems(old(p.View())), old(p.diag.errorCount))
      decreases Left(p)
    {
      var start := p.current.loc;
      ghost var before, errors := Left(p), p.diag.errorCount;
      ParseNamespaceItem(p);
      var _ := ForceProgress(p, start, before, errors);
    }
  }

  method ParsePath(p: Parser)
    requires Ready(p)
    modifies p, p.diag
    ensures Advanced(p, old(Left(p)), old(p.diag.errorCount))
    ensures Behind(p, Path(old(p.View())), old(p.diag.errorCount))
  {
    hide Parser.Valid, Parser.View, Left, CanBeLeft, PlaceAt, Roomy, PathPart;
    ParsePathPart(p, "expected namespace name");
    var more := Accept(p, ColonColon);
    while more
      invariant Advanced(p, old(Left(p)), old(p.diag.errorCount))
      invariant Goes(p, if more then Path(p.View()) else Some(p.View()), Path(old(p.View())), old(p.diag.errorCount))
      decreases Left(p), more
    {
      ParsePathPart(p, "expected identifier after '::'");
      more := Accept(p, ColonColon);
    }
  }

  method ParsePathPart(p: Parser, message: string)
    requires Ready(p)
    modifies p, p.diag
    ensures Advanced(p, old(Left(p)), old(p.diag.errorCount))
    ensures Behind(p, PathPart(old(p.View())), old(p.diag.errorCount))
  {
    hide Parser.Valid, Parser.View, Left, CanBeLeft, PlaceAt, Roomy;
    if p.Check(Identifier) || p.Check(KW_internal) {
      var _ := Take(p);
    } else {
      p.Error(message);
    }
  }

  method ParseNamespaceItem(p: Parser)
    requires Ready(p)
    modifies p, p.diag
    ensures Advanced(p, old(Left(p)), old(p.diag.errorCount))
    ensures Behind(p, NamespaceItem(old(p.View())), old(p.diag.errorCount))
    decreases Left(p), 20
  {
    hide Parser.Valid, Parser.View, Left, CanBeLeft, PlaceAt, Roomy, Lifetime, Handler, Flow, LogicBlock, Section;
    var lifetime := WordFollowedBy(p, "lifetime", Identifier);
    if lifetime {
      ParseLifetime(p);
    } else if p.Check(KW_handler) {
      ParseHandler(p);
    } else if p.Check(KW_flow) {
      ParseFlow(p);
    } else if p.Check(KW_fn) {
      ParseFnLogicBlock(p);
    } else if IsVisibility(p.current.kind) {
      ParseVisibilitySection(p);
    } else {
      SkipUnexpected(p, "expected visibility specifier (public, protected, private, or internal)");
    }
  }

  /** A word the lexer does not know, recognised by its text and the token behind it. */
  method WordFollowedBy(p: Parser, word: string, kind: Kind) returns (yes: bool)
    requires Ready(p)
    modifies p
    ensures Onward(p, old(Left(p)), old(p.diag.errorCount)) && p.current == old(p.current) && p.View() == old(p.View())
    ensures yes == (StartsWith(p.View(), word) && Second(p.View()) == kind)
  {
    hide Parser.Valid, Parser.View, Left, CanBeLeft, PlaceAt, Roomy;
    yes := false;
    if p.Check(Identifier) && p.current.text == word {
      yes := Follows(p, Identifier, kind);
    }
  }

  method ParseVisibilitySection(p: Parser)
    requires Ready(p)
    modifies p, p.diag
    ensures Onward(p, old(Left(p)), old(p.diag.errorCount)) && (old(p.current).kind != Eof ==> Left(p) < old(Left(p)))
    ensures old(IsVisibility(p.current.kind)) ==> Behind(p, Section(old(p.View())), old(p.diag.errorCount))
    decreases Left(p), 10
  {
    hide Parser.Valid, Parser.View, Left, CanBeLeft, PlaceAt, Roomy, SectionMembers;
    var _ := Take(p);
    var _ := Demand(p, Colon, "expected ':' after visibility specifier");
    ParseSectionMembers(p);
  }

  method ParseSectionMembers(p: Parser)
    requires Ready(p)
    modifies p, p.diag
    ensures Onward(p, old(Left(p)), old(p.diag.errorCount))
    ensures Behind(p, SectionMembers(old(p.View())), old(p.diag.errorCount))
    decreases Left(p), if Left(p) == 0 then 0 else 70
  {
    hide Parser.Valid, Parser.View, Left, CanBeLeft, PlaceAt, Roomy, PriorityHeader, Member, IsVisibility;
    while !p.Check(Eof) && !p.Check(RCurly) && !IsVisibility(p.current.kind) && !p.diag.ReachedLimit()
      invariant Onward(p, old(Left(p)), old(p.diag.errorCount))
      invariant Goes(p, SectionMembers(p.View()), SectionMembers(old(p.View())), old(p.diag.errorCount))
      decreases Left(p)
    {
      var start := p.current.loc;
      ghost var before, errors := Left(p), p.diag.errorCount;
      if p.Check(KW_priority) {
        ParsePriorityLevel(p);
        continue;
      }
      ParseMemberDecl(p);
      var _ := ForceProgress(p, start, before, errors);
    }
  }

  // ---------- Members ----------

  method ParseMemberDecl(p: Parser)
    requires Ready(p)
    modifies p, p.diag
    ensures Advanced(p, old(Left(p)), old(p.diag.errorCount))
    ensures Behind(p, Member(old(p.View())), old(p.diag.errorCount))
    decreases Left(p), 60
  {
    hide Parser.Valid, Parser.View, Left, CanBeLeft, PlaceAt, Roomy, Modifiers, ComptimeIf, ComptimeFunction, PlainMember;
    var comptime := CollectModifiers(p);
    if comptime && p.Check(KW_if) {
      ParseComptimeIf(p);
    } else if comptime && p.Check(KW_fn) {
      ParseComptimeFn(p);
    } else {
      ParsePlainMember(p);
    }
  }

  method ParseComptimeIf(p: Parser)
    requires Ready(p) && p.Check(KW_if)
    modifies p, p.diag
    ensures Advanced(p, old(Left(p)), old(p.diag.errorCount))
    ensures Behind(p, ComptimeIf(old(p.View())), old(p.diag.errorCount))
    decreases Left(p), 10
  {
    hide Parser.Valid, Parser.View, Left, CanBeLeft, PlaceAt, Roomy, Expression, Braced;
    var _ := Take(p);
    var _ := Demand(p, LParen, "expected '(' after 'comptime if'");
    TakeExpression(p);
    var _ := Demand(p, RParen, "expected ')' after condition");
    ParseBraced(p, "expected '{' after comptime if condition", "expected '}' after comptime if body");
    var otherwise := Accept(p, KW_else);
    if otherwise {
      ParseBraced(p, "expected '{' after 'else'", "expected '}' after else body");
    }
  }

  method ParseBraced(p: Parser, open: string, close: string)
    requires Ready(p)
    modifies p, p.diag
    ensures Advanced(p, old(Left(p)), old(p.diag.errorCount))
    ensures Behind(p, Braced(old(p.View())), old(p.diag.errorCount))
    decreases Left(p), 80
  {
    hide Parser.Valid, Parser.View, Left, CanBeLeft, PlaceAt, Roomy, Members, Tok;
    var _ := Demand(p, LCurly, open);
    ParseMembers(p);
    var _ := Demand(p, RCurly, close);
  }

  method ParseMembers(p: Parser)
    requires Ready(p)
    modifies p, p.diag
    ensures Onward(p, old(Left(p)), old(p.diag.errorCount))
    ensures Behind(p, Members(old(p.View())), old(p.diag.errorCount))
    decreases Left(p), 70
  {
    hide Parser.Valid, Parser.View, Left, CanBeLeft, PlaceAt, Roomy, Member;
    while !p.Check(RCurly) && !p.Check(Eof) && !p.diag.ReachedLimit()
      invariant Onward(p, old(Left(p)), old(p.diag.errorCount))
      invariant Goes(p, Members(p.View()), Members(old(p.View())), old(p.diag.errorCount))
      decreases Left(p)
    {
      var start := p.current.loc;
      ghost var before, errors := Left(p), p.diag.errorCount;
      ParseMemberDecl(p);
      var _ := ForceProgress(p, start, before, errors);
    }
  }

  method ParsePlainMember(p: Parser)
    requires Ready(p)
    modifies p, p.diag
    ensures Advanced(p, old(Left(p)), old(p.diag.errorCount))
    ensures Behind(p, PlainMember(old(p.View())), old(p.diag.errorCount))
    decreases Left(p), 50
  {
    hide Parser.Valid, Parser.View, Left, CanBeLeft, PlaceAt, Roomy, Fn, Handler, Flow, StdImport, TypeAlias, InnerNamespace, Definition;
    if p.Check(KW_fn) {
      ParseFn(p);
      return;
    }
    if p.Check(KW_handler) {
      ParseHandler(p);
      return;
    }
    if p.Check(KW_flow) {
      ParseFlow(p);
      return;
    }
    var std := WordFollowedBy(p, "std", ColonColon);
    if std {
      ParseStdImport(p);
      return;
    }
    if p.Check(KW_using) {
      ParseTypeAlias(p);
      return;
    }
    var namespaced := ParseInternalNamespace(p);
    if !namespaced {
      ParseDefinition(p);
    }
  }

  /** An operator if the keyword `operator` follows, else a logic block. */
  method ParseFn(p: Parser)
    requires Ready(p)
    modifies p, p.diag
    ensures Advanced(p, old(Left(p)), old(p.diag.errorCount))
    ensures old(p.Check(KW_fn)) ==> Behind(p, Fn(old(p.View())), old(p.diag.errorCount))
  {
    hide Parser.Valid, Parser.View, Left, CanBeLeft, PlaceAt, Roomy, Operator, LogicBlock;
    var overload := Follows(p, KW_fn, KW_operator);
    if overload {
      ParseOperator(p);
    } else {
      ParseFnLogicBlock(p);
    }
  }

  /** A namespace, perhaps an internal one, if one starts here. */
  method ParseInternalNamespace(p: Parser) returns (found: bool)
    requires Ready(p)
    modifies p, p.diag
    ensures Onward(p, old(Left(p)), old(p.diag.errorCount))
    ensures found ==> Advanced(p, old(Left(p)), old(p.diag.errorCount))
    ensures found == old(StartsNamespace(p.View()))
    ensures if found then Behind(p, InnerNamespace(old(p.View())), old(p.diag.errorCount)) else p.View() == old(p.View()) && p.diag.errorCount == old(p.diag.errorCount)
    decreases Left(p), 40
  {
    hide Parser.Valid, Parser.View, Left, CanBeLeft, PlaceAt, Roomy, Namespace;
    var inside := Follows(p, KW_internal, KW_namespace);
    if inside {
      var _ := Take(p);
    }
    found := inside || p.Check(KW_namespace);
    if found {
      ParseNamespaceDecl(p);
    }
  }

  method ParseDefinition(p: Parser)
    requires Ready(p)
    modifies p, p.diag
    ensures Advanced(p, old(Left(p)), old(p.diag.errorCount))
    ensures old(!StartsNamespace(p.View())) ==> Behind(p, Definition(old(p.View())), old(p.diag.errorCount))
    decreases Left(p), 30
  {
    hide Parser.Valid, Parser.View, Left, CanBeLeft, PlaceAt, Roomy, Template, TypeDefinition, Constraint, Adapt, Instantiate, TypeFunction, Function, Lifetime, IsTypeStart;
    if p.Check(KW_template) {
      ParseTemplateDecl(p);
    } else if p.Check(KW_type) {
      ParseTypeDecl(p);
    } else if p.Check(KW_class) {
      Warn(p, "'class' is deprecated, use 'type' instead");
      ParseTypeDecl(p);
    } else if p.Check(KW_constraint) {
      ParseConstraint(p);
    } else if p.Check(KW_adapt) {
      ParseAdapt(p);
    } else if p.Check(KW_instantiate) {
      ParseInstantiate(p);
    } else if p.Check(KW_typefn) {
      ParseTypeFn(p);
    } else if p.Check(KW_virtual) {
      Reject(p, "'virtual' is prohibited in Topo (C002)");
    } else {
      ParseFnDecl(p);
    }
  }

  method ParseFnDecl(p: Parser)
    requires Ready(p)
    modifies p, p.diag
    ensures Advanced(p, old(Left(p)), old(p.diag.errorCount))
    ensures Behind(p, if StartsLifetime(old(p.View())) then Lifetime(old(p.View())) else if IsTypeStart(Head(old(p.View()))) && Head(old(p.View())) != KW_typename then Function(old(p.View())) else None, old(p.diag.errorCount))
  {
    hide Parser.Valid, Parser.View, Left, CanBeLeft, PlaceAt, Roomy, Lifetime, IsTypeStart, Function;
    var lifetime := WordFollowedBy(p, "lifetime", Identifier);
    if lifetime {
      ParseLifetime(p);
    } else if IsTypeStart(p.current.kind) && !p.Check(KW_typename) {
      ParseEitherStyle(p);
    } else {
      Reject(p, "expected member declaration");
    }
  }

  /** A name in front of `(` or `.` starts the style with the return type behind. */
  method ParseEitherStyle(p: Parser)
    requires Ready(p)
    modifies p, p.diag
    ensures Advanced(p, old(Left(p)), old(p.diag.errorCount))
    ensures Behind(p, Function(old(p.View())), old(p.diag.errorCount))
  {
    hide Parser.Valid, Parser.View, Left, CanBeLeft, PlaceAt, Roomy, RustFunction, CppFunction;
    var called := Follows(p, Identifier, LParen);
    var dotted := Follows(p, Identifier, Dot);
    if called || dotted {
      ParseFnDeclRustStyle(p);
    } else {
      ParseFnDeclCppStyle(p);
    }
  }

  // ---------- Templates and types ----------

  method ParseTemplateDecl(p: Parser)
    requires Ready(p)
    modifies p, p.diag
    ensures Advanced(p, old(Left(p)), old(p.diag.errorCount))
    ensures Behind(p, Template(old(p.View())), old(p.diag.errorCount))
    decreases Left(p), 20
  {
    hide Parser.Valid, Parser.View, Left, CanBeLeft, PlaceAt, Roomy, TemplateParameters, TypeDefinition, LogicBlock, CppFunction, Function, Tok;
    var _ := Demand(p, KW_template, "expected 'template'");
    ParseTemplateParameters(p);
    if p.Check(KW_type) || p.Check(KW_class) {
      if p.Check(KW_class) {
        Warn(p, "'class' is deprecated, use 'type' instead");
      }
      ParseTypeDecl(p);
    } else if p.Check(KW_fn) {
      ParseFnLogicBlock(p);
    } else if p.Check(KW_void) || p.Check(KW_const) {
      ParseFnDeclCppStyle(p);
    } else if p.Check(Identifier) {
      ParseEitherStyle(p);
    } else {
      Reject(p, "expected function or type declaration after template<...>");
    }
  }

  method ParseTypeDecl(p: Parser)
    requires Ready(p)
    modifies p, p.diag
    ensures Advanced(p, old(Left(p)), old(p.diag.errorCount))
    ensures Behind(p, TypeDefinition(old(p.View())), old(p.diag.errorCount))
    decreases Left(p), 10
  {
    hide Parser.Valid, Parser.View, Left, CanBeLeft, PlaceAt, Roomy, TypeHead, TypeBody, Tok;
    if !p.Check(KW_type) && !p.Check(KW_class) {
      Reject(p, "expected 'type' or 'class'");
      return;
    }
    var _ := Take(p);
    var name, ok := ParseTypeHead(p);
    if !ok {
      return;
    }
    ParseTypeBody(p, name);
    var _ := Demand(p, RCurly, "expected '}' to close type");
  }

  /** Up to the opening brace; without `public` in front of the type derived from, parsing it ends there. */
  method ParseTypeHead(p: Parser) returns (name: string, ok: bool)
    requires Ready(p)
    modifies p, p.diag
    ensures Advanced(p, old(Left(p)), old(p.diag.errorCount)) && name == old(HeadText(p.View()))
    ensures Behind(p, TypeHead(old(p.View())), old(p.diag.errorCount))
    ensures !ok ==> Behind(p, None, old(p.diag.errorCount))
  {
    hide Parser.Valid, Parser.View, Left, CanBeLeft, PlaceAt, Roomy, Specialization, Derivation, Tok;
    var t := Demand(p, Identifier, "expected type name");
    name := t.text;
    ParseSpecialization(p);
    ok := ParseDerivation(p);
    if ok {
      var _ := Demand(p, LCurly, "expected '{' after type declaration");
    }
  }

  method ParseDerivation(p: Parser) returns (ok: bool)
    requires Ready(p)
    modifies p, p.diag
    ensures Onward(p, old(Left(p)), old(p.diag.errorCount))
    ensures Behind(p, Derivation(old(p.View())), old(p.diag.errorCount))
    ensures !ok ==> Behind(p, None, old(p.diag.errorCount))
  {
    hide Parser.Valid, Parser.View, Left, CanBeLeft, PlaceAt, Roomy, Type;
    ok := true;
    var derived := Accept(p, Colon);
    if derived {
      if !p.Check(KW_public) {
        Reject(p, "expected 'public' in inheritance declaration");
        ok := false;
        return;
      }
      var _ := Take(p);
      TakeType(p);
    }
  }

  method ParseSpecialization(p: Parser)
    requires Ready(p)
    modifies p, p.diag
    ensures Onward(p, old(Left(p)), old(p.diag.errorCount))
    ensures Behind(p, Specialization(old(p.View())), old(p.diag.errorCount))
  {
    hide Parser.Valid, Parser.View, Left, CanBeLeft, PlaceAt, Roomy, SpecializationTypes;
    var special := Accept(p, LAngle);
    if special {
      ParseSpecializationTypes(p);
      var _ := Demand(p, RAngle, "expected '>' after specialization arguments");
    }
  }

  method ParseSpecializationTypes(p: Parser)
    requires Ready(p)
    modifies p, p.diag
    ensures Onward(p, old(Left(p)), old(p.diag.errorCount))
    ensures Behind(p, SpecializationTypes(old(p.View())), old(p.diag.errorCount))
  {
    hide Parser.Valid, Parser.View, Left, CanBeLeft, PlaceAt, Roomy, Type;
    while !p.Check(RAngle) && !p.Check(Eof) && !p.diag.ReachedLimit()
      invariant Onward(p, old(Left(p)), old(p.diag.errorCount))
      invariant Goes(p, SpecializationTypes(p.View()), SpecializationTypes(old(p.View())), old(p.diag.errorCount))
      decreases Left(p)
    {
      var start := p.current.loc;
      ghost var before, errors := Left(p), p.diag.errorCount;
      TakeType(p);
      if !p.Check(RAngle) {
        var _ := Demand(p, Comma, "expected ',' or '>' in specialization argument list");
      }
      var _ := ForceProgress(p, start, before, errors);
    }
  }

  method ParseTypeBody(p: Parser, typeName: string)
    requires Ready(p)
    modifies p, p.diag
    ensures Onward(p, old(Left(p)), old(p.diag.errorCount))
    ensures Behind(p, TypeBody(old(p.View()), typeName), old(p.diag.errorCount))
    decreases Left(p), 90
  {
    hide Parser.Valid, Parser.View, Left, CanBeLeft, PlaceAt, Roomy, TypeSection, IsVisibility;
    while !p.Check(RCurly) && !p.Check(Eof) && !p.diag.ReachedLimit()
      invariant Onward(p, old(Left(p)), old(p.diag.errorCount))
      invariant Goes(p, TypeBody(p.View(), typeName), TypeBody(old(p.View()), typeName), old(p.diag.errorCount))
      decreases Left(p)
    {
      var start := p.current.loc;
      ghost var before, errors := Left(p), p.diag.errorCount;
      if IsVisibility(p.current.kind) {
        ParseTypeSection(p, typeName);
      } else {
        Reject(p, "expected visibility specifier (public, protected, private) in type body");
      }
      var _ := ForceProgress(p, start, before, errors);
    }
  }

  method ParseTypeSection(p: Parser, typeName: string)
    requires Ready(p)
    modifies p, p.diag
    ensures Onward(p, old(Left(p)), old(p.diag.errorCount)) && (old(p.current).kind != Eof ==> Left(p) < old(Left(p)))
    ensures old(IsVisibility(p.current.kind)) ==> Behind(p, TypeSection(old(p.View()), typeName), old(p.diag.errorCount))
    decreases Left(p), 80
  {
    hide Parser.Valid, Parser.View, Left, CanBeLeft, PlaceAt, Roomy, TypeMembers;
    var _ := Take(p);
    var _ := Demand(p, Colon, "expected ':' after visibility specifier");
    ParseTypeMembers(p, typeName);
  }

  method ParseTypeMembers(p: Parser, typeName: string)
    requires Ready(p)
    modifies p, p.diag
    ensures Onward(p, old(Left(p)), old(p.diag.errorCount))
    ensures Behind(p, TypeMembers(old(p.View()), typeName), old(p.diag.errorCount))
    decreases Left(p), 75
  {
    hide Parser.Valid, Parser.View, Left, CanBeLeft, PlaceAt, Roomy, PriorityHeader, TypeMember, IsVisibility;
    while !p.Check(Eof) && !p.Check(RCurly) && !IsVisibility(p.current.kind) && !p.diag.ReachedLimit()
      invariant Onward(p, old(Left(p)), old(p.diag.errorCount))
      invariant Goes(p, TypeMembers(p.View(), typeName), TypeMembers(old(p.View()), typeName), old(p.diag.errorCount))
      decreases Left(p)
    {
      var start := p.current.loc;
      ghost var before, errors := Left(p), p.diag.errorCount;
      if p.Check(KW_priority) {
        ParsePriorityLevel(p);
        continue;
      }
      ParseTypeMember(p, typeName);
      var _ := ForceProgress(p, start, before, errors);
    }
  }

  // ---------- Members of a type ----------

  method ParseTypeMember(p: Parser, typeName: string)
    requires Ready(p)
    modifies p, p.diag
    ensures Advanced(p, old(Left(p)), old(p.diag.errorCount))
    ensures Behind(p, TypeMember(old(p.View()), typeName), old(p.diag.errorCount))
    decreases Left(p), 70
  {
    hide Parser.Valid, Parser.View, Left, CanBeLeft, PlaceAt, Roomy, Member, Destructor, ExplicitConstructor, UsualMember;
    if p.Check(KW_external) || p.Check(KW_comptime) {
      var _ := Take(p);
      ParseTypeMember(p, typeName);
    } else if p.Check(KW_type) || p.Check(KW_class) || p.Check(KW_template) {
      ParseMemberDecl(p);
    } else if p.Check(KW_virtual) {
      Reject(p, "'virtual' is prohibited in Topo (C002)");
    } else if p.Check(Tilde) {
      ParseDestructor(p, typeName);
    } else if p.Check(KW_explicit) {
      ParseExplicitConstructor(p, typeName);
    } else {
      ParseUsualMember(p, typeName);
    }
  }

  method ParseDestructor(p: Parser, typeName: string)
    requires Ready(p)
    modifies p, p.diag
    ensures Advanced(p, old(Left(p)), old(p.diag.errorCount))
    ensures old(p.Check(Tilde)) ==> Behind(p, Destructor(old(p.View()), typeName), old(p.diag.errorCount))
  {
    hide Parser.Valid, Parser.View, Left, CanBeLeft, PlaceAt, Roomy, NoParameters;
    var _ := Take(p);
    var name := Demand(p, Identifier, "expected type name after '~'");
    if name.text != typeName {
      ErrorAt(p, name.loc, "destructor name does not match type name");
    }
    ParseNoParameters(p);
  }

  method ParseNoParameters(p: Parser)
    requires Ready(p)
    modifies p, p.diag
    ensures Advanced(p, old(Left(p)), old(p.diag.errorCount))
    ensures Behind(p, NoParameters(old(p.View())), old(p.diag.errorCount))
  {
    hide Parser.Valid, Parser.View, Left, CanBeLeft, PlaceAt, Roomy, Tok;
    var _ := Demand(p, LParen, "expected '(' after destructor name");
    var _ := Demand(p, RParen, "expected ')' in destructor declaration");
    var _ := Demand(p, Semicolon, "expected ';' after destructor declaration");
  }

  method ParseExplicitConstructor(p: Parser, typeName: string)
    requires Ready(p)
    modifies p, p.diag
    ensures Advanced(p, old(Left(p)), old(p.diag.errorCount))
    ensures old(p.Check(KW_explicit)) ==> Behind(p, ExplicitConstructor(old(p.View()), typeName), old(p.diag.errorCount))
  {
    hide Parser.Valid, Parser.View, Left, CanBeLeft, PlaceAt, Roomy, ConstructorRest;
    var _ := Take(p);
    var name := Demand(p, Identifier, "expected constructor name after 'explicit'");
    if name.text != typeName {
      ErrorAt(p, name.loc, "explicit constructor name does not match type name");
    }
    ParseConstructorRest(p);
  }

  method ParseConstructorRest(p: Parser)
    requires Ready(p)
    modifies p, p.diag
    ensures Advanced(p, old(Left(p)), old(p.diag.errorCount))
    ensures Behind(p, ConstructorRest(old(p.View())), old(p.diag.errorCount))
  {
    hide Parser.Valid, Parser.View, Left, CanBeLeft, PlaceAt, Roomy, CountedParameters;
    var _ := ParseParameterList(p);
    EndOrSkipBody(p);
  }

  method EndOrSkipBody(p: Parser)
    requires Ready(p)
    modifies p, p.diag
    ensures Advanced(p, old(Left(p)), old(p.diag.errorCount))
    ensures Behind(p, Tok(old(p.View()), Semicolon), old(p.diag.errorCount))
  {
    hide Parser.Valid, Parser.View, Left, CanBeLeft, PlaceAt, Roomy;
    if p.Check(LCurly) {
      SkipBody(p);
    } else {
      var _ := Demand(p, Semicolon, "expected ';' after declaration");
    }
  }

  method ParseUsualMember(p: Parser, typeName: string)
    requires Ready(p)
    modifies p, p.diag
    ensures Advanced(p, old(Left(p)), old(p.diag.errorCount))
    ensures Behind(p, UsualMember(old(p.View()), typeName), old(p.diag.errorCount))
  {
    hide Parser.Valid, Parser.View, Left, CanBeLeft, PlaceAt, Roomy, Operator, ConstructorRest, TypeAlias, TypedMember;
    var start := p.current.loc;
    var isStatic := Accept(p, KW_static);
    var overload := Follows(p, KW_fn, KW_operator);
    if overload {
      ParseOperator(p);
      return;
    }
    var constructs := WordFollowedBy(p, typeName, LParen);
    if constructs {
      if isStatic {
        ErrorAt(p, start, "constructors cannot be declared static");
      }
      var _ := Take(p);
      ParseConstructorRest(p);
    } else if p.Check(KW_using) {
      ParseTypeAlias(p);
    } else {
      ParseTypedMember(p);
    }
  }

  /** A member function or a member variable. */
  method ParseTypedMember(p: Parser)
    requires Ready(p)
    modifies p, p.diag
    ensures Advanced(p, old(Left(p)), old(p.diag.errorCount))
    ensures Behind(p, TypedMember(old(p.View())), old(p.diag.errorCount))
  {
    hide Parser.Valid, Parser.View, Left, CanBeLeft, PlaceAt, Roomy, Type, CountedParameters, IsTypeStart;
    if !IsTypeStart(p.current.kind) {
      Reject(p, "expected type member declaration");
      return;
    }
    TakeType(p);
    if !p.Check(Identifier) {
      Reject(p, "expected member name after type");
      return;
    }
    var _ := Take(p);
    if p.Check(LParen) {
      var _ := ParseParameterList(p);
      var _ := Accept(p, KW_const);
      EndOrSkipBody(p);
    } else if p.Check(Assign) {
      Reject(p, "member variable initializers are prohibited in Topo (C004)");
    } else {
      var _ := Demand(p, Semicolon, "expected ';' after member variable declaration");
    }
  }

  // ---------- The file ----------

  method ParseTopLevelDecl(p: Parser)
    requires Ready(p)
    modifies p, p.diag
    ensures Advanced(p, old(Left(p)), old(p.diag.errorCount))
    ensures Behind(p, TopLevel(old(p.View())), old(p.diag.errorCount))
  {
    hide Parser.Valid, Parser.View, Left, CanBeLeft, PlaceAt, Roomy, Import, StdImport, TypeAlias, InnerNamespace, Debug;
    if p.Check(KW_import) {
      ParseImport(p);
      return;
    }
    var std := WordFollowedBy(p, "std", ColonColon);
    if std {
      ParseStdImport(p);
      return;
    }
    if p.Check(KW_using) {
      ParseTypeAlias(p);
      return;
    }
    var namespaced := ParseInternalNamespace(p);
    if !namespaced {
      ParseDebugOrSkip(p);
    }
  }

  method ParseDebugOrSkip(p: Parser)
    requires Ready(p)
    modifies p, p.diag
    ensures Advanced(p, old(Left(p)), old(p.diag.errorCount))
    ensures Behind(p, if StartsWith(old(p.View()), "debug") && Second(old(p.View())) == Identifier then Debug(old(p.View())) else None, old(p.diag.errorCount))
  {
    hide Parser.Valid, Parser.View, Left, CanBeLeft, PlaceAt, Roomy, Debug;
    var debug := WordFollowedBy(p, "debug", Identifier);
    if debug {
      ParseDebug(p);
    } else {
      SkipUnexpected(p, "expected top-level declaration (import, using, namespace, or debug)");
    }
  }

  /** Parsing ends on every list of tokens, with everything read or the error budget spent, after no
      more rounds than there is to read. Where no two places coincide, no token is skipped silently:
      every time the guard fires an error was reported. Where places move on with the tokens, so do the
      rounds. */
  method ParseTopoFile(p: Parser) returns (starts: seq<Location>, forced: nat)
    requires Ready(p)
    modifies p, p.diag
    ensures p.Valid() && p.diag.Valid() && (p.View() == [] || p.diag.errorCount == MAX_ERRORS)
    ensures |starts| + Left(p) <= old(Left(p)) && old(p.diag.errorCount) <= p.diag.errorCount
    ensures Roomy(p.source, p.end) && old(p.diag.errorCount) < MAX_ERRORS ==>
              (p.diag.errorCount == old(p.diag.errorCount) <==> File(old(p.View())).Some?)
    ensures Apart(p.source, p.end) ==> old(p.diag.errorCount) + forced <= p.diag.errorCount
    ensures Roomy(p.source, p.end) ==> forall i, j :: 0 <= i < j < |starts| ==> starts[i].Before(starts[j])
  {
    hide Parser.Valid, Parser.View, CanBeLeft, PlaceAt, Roomy, Apart, TopLevel;
    starts, forced := [], 0;
    while !p.Check(Eof) && !p.diag.ReachedLimit()
      invariant Ready(p) && |starts| + Left(p) <= old(Left(p)) && old(p.diag.errorCount) <= p.diag.errorCount
      invariant Goes(p, File(p.View()), File(old(p.View())), old(p.diag.errorCount))
      invariant Apart(p.source, p.end) ==> old(p.diag.errorCount) + forced <= p.diag.errorCount
      invariant Roomy(p.source, p.end) ==>
                (forall i :: 0 <= i < |starts| ==> starts[i].Before(p.current.loc)) &&
                (forall i, j :: 0 <= i < j < |starts| ==> starts[i].Before(starts[j]))
      decreases Left(p)
    {
      var start, fired := TopLevelRound(p);
      starts, forced := starts + [start], forced + if fired then 1 else 0;
    }
    p.CurrentIsHead();
    EngineIsValid(p);
  }

  /** One declaration and the stall guard behind it. */
  method TopLevelRound(p: Parser) returns (start: Location, forced: bool)
    requires Ready(p) && !p.Check(Eof) && !p.diag.ReachedLimit()
    modifies p, p.diag
    ensures Onward(p, old(Left(p)), old(p.diag.errorCount)) && Left(p) < old(Left(p))
    ensures start == old(p.current).loc
    ensures Apart(p.source, p.end) && forced ==> old(p.diag.errorCount) < p.diag.errorCount
    ensures Roomy(p.source, p.end) ==> start.Before(p.current.loc)
    ensures Behind(p, TopLevel(old(p.View())), old(p.diag.errorCount))
  {
    hide Parser.Valid, Left, CanBeLeft, PlaceAt, Roomy, Apart, TopLevel;
    start := p.current.loc;
    ParseTopLevelDecl(p);
    forced := ForceProgress(p, start, old(Left(p)), old(p.diag.errorCount));
    if Roomy(p.source, p.end) { PlacesTellProgress(p.source, p.end, Left(p), old(Left(p))); }
  }

  lemma EngineIsValid(p: Parser)
    requires p.Valid()
    ensures p.diag.Valid()
  {
  }

  /** Parsing ends on every source text. */
  method ParseText(c: Lexing.Config, src: string) returns (p: Parser)
    ensures p.Valid() && p.source == Lexing.TokensFrom(c, src, 0)
    ensures p.diag.errorCount == 0 <==> File(Lexemes(Lexing.TokensFrom(c, src, 0))).Some?
    ensures p.View() == [] || p.diag.errorCount == MAX_ERRORS
  {
    hide Parser.Valid, CanBeLeft, PlaceAt;
    var diag := new DiagnosticEngine();
    LexerResults.TokensAreOrdered(c, src, 0);
    p := new Parser(Lexing.TokensFrom(c, src, 0), Lexing.LocAt(src, |src|), diag);
    ValidIsReady(p);
    TokensAreRoomy(c, src, 0);
    var _, _ := ParseTopoFile(p);
  }
}
