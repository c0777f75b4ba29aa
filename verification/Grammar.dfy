/** The grammar of declarations: what a file may consist of, rule by rule. A rule reads a piece of the language from
    the head of a list of tokens and tells what is left behind it; it fails where no such piece stands. Nothing is
    recovered here and no place matters. Where a choice needs a second token, the rule asks for it. */
module Grammar {
  import opened Tokens
  import opened TokenBuffer
  import opened Options
  import opened TypeParser
  import opened Progress

  // ---------- Numbers and words ----------

  /** A decimal number, perhaps negative, inside the range of an int64. */
  predicate IsInt64(text: string) {
    if text != [] && text[0] == '-' then |text| > 1 && AllDigits(text[1..]) && Decimal(text[1..]) <= 0x8000_0000_0000_0000
    else text != [] && AllDigits(text) && Decimal(text) <= 0x7FFF_FFFF_FFFF_FFFF
  }

  predicate IsHint(text: string) { text == "cardinality" || text == "access" }

  predicate IsTypeStart(kind: Kind) {
    kind == KW_void || kind == KW_const || kind == KW_owned || kind == KW_shared || kind == KW_weak ||
    kind == Identifier || kind == KW_typename || IsStdlibToken(kind)
  }

  predicate IsOverloadable(kind: Kind) {
    kind == Plus || kind == Minus || kind == Star || kind == Slash || kind == Percent || kind == EqEq ||
    kind == NotEq || kind == LAngle || kind == RAngle || kind == LessEq || kind == GreaterEq || kind == Amp ||
    kind == Pipe || kind == Caret || kind == Tilde || kind == ShiftLeft || kind == ShiftRight ||
    kind == AmpAmp || kind == PipePipe || kind == Bang || kind == FatArrow
  }

  predicate StartsWith(s: Stream, word: string) {
    Head(s) == Identifier && HeadText(s) == word
  }

  predicate StartsHint(s: Stream) {
    Head(s) == Identifier && IsHint(HeadText(s))
  }

  /** The tokens past an optional one. */
  function Past(s: Stream, kind: Kind): (r: Stream)
    ensures |r| <= |s|
  {
    if Head(s) == kind then Tail(s) else s
  }

  // ---------- Pieces of declarations ----------

  function Modifiers(s: Stream): (r: (Stream, bool))
    ensures |r.0| <= |s|
    decreases |s|
  {
    if Head(s) == KW_comptime then (Modifiers(Tail(s)).0, true)
    else if Head(s) == KW_static || Head(s) == KW_explicit || Head(s) == KW_external then Modifiers(Tail(s))
    else (s, false)
  }

  function PriorityHeader(s: Stream): (r: Option<Stream>)
    ensures r.Some? ==> |r.value| < |s|
  {
    var s :- Tok(s, KW_priority);
    PriorityLevel(s)
  }

  function PriorityLevel(s: Stream): (r: Option<Stream>)
    ensures r.Some? ==> |r.value| < |s|
  {
    var s :- Tok(s, LParen);
    var level := HeadText(s);
    var s :- Tok(s, Identifier);
    var s :- if level in {"critical", "high", "normal", "low", "background"} then Tok(s, RParen) else None;
    Tok(s, Colon)
  }

  function Cardinality(s: Stream): (r: Option<Stream>)
    ensures r.Some? ==> |r.value| < |s|
  {
    var number := HeadText(s);
    var s :- Tok(s, IntegerLiteral);
    if !IsInt64(number) then None
    else if Head(s) == Identifier && HeadText(s) in {"k", "K", "M", "m"} then Some(Tail(s))
    else Some(s)
  }

  function Access(s: Stream): (r: Option<Stream>)
    ensures r.Some? ==> |r.value| < |s|
  {
    var mode := HeadText(s);
    var s :- Tok(s, Identifier);
    if mode !in {"streaming", "random", "tiled", "gather_scatter"} then None
    else if mode == "tiled" && Head(s) == Comma then
      var size := HeadText(Tail(s));
      var s :- Tok(Tail(s), IntegerLiteral);
      if ParseInt(size).None? || ParseInt(size) == Some(0) then None else Some(s)
    else Some(s)
  }

  function Hint(s: Stream): (r: Option<Stream>)
    requires StartsHint(s)
    ensures r.Some? ==> |r.value| < |s|
  {
    if HeadText(s) == "cardinality" then
      var s :- Tok(Tail(s), LParen);
      var s :- Cardinality(s);
      var s :- if Head(s) == DotDot && Second(s) == IntegerLiteral then Cardinality(Tail(s)) else Some(Past(s, DotDot));
      Tok(s, RParen)
    else
      var s :- Tok(Tail(s), LParen);
      var s :- Access(s);
      Tok(s, RParen)
  }

  function Hints(s: Stream): (r: Option<Stream>)
    ensures r.Some? ==> |r.value| <= |s|
    decreases |s|
  {
    if !StartsHint(s) then Some(s)
    else
      var s :- Hint(s);
      if Head(s) == Comma && StartsHint(Tail(s)) then Hints(Tail(s)) else Some(s)
  }

  /** The hints behind a certain token, if that and a hint stand here. */
  function HintsBehind(s: Stream, kind: Kind): (r: Option<Stream>)
    ensures r.Some? ==> |r.value| <= |s|
  {
    if Head(s) == kind && StartsHint(Tail(s)) then Hints(Tail(s)) else Some(s)
  }

  /** Identifiers with a separator between them. */
  function Names(s: Stream, separator: Kind): (r: Option<Stream>)
    ensures r.Some? ==> |r.value| < |s|
    decreases |s|
  {
    var s :- Tok(s, Identifier);
    if Head(s) == separator && s != [] then Names(Tail(s), separator) else Some(s)
  }

  function MoreParameters(s: Stream, n: nat): (r: Option<Counted>)
    ensures r.Some? ==> |r.value.rest| < |s|
    decreases |s|
  {
    var s :- Type(s);
    var s :- Tok(s, Identifier);
    if Head(s) == Comma then MoreParameters(Tail(s), n + 1) else Some(Counted(n + 1, s))
  }

  /** `Type name` pairs separated by commas, up to a closing parenthesis; tells how many. */
  function Parameters(s: Stream): (r: Option<Counted>)
    ensures r.Some? ==> |r.value.rest| <= |s|
  {
    if Head(s) == RParen then Some(Counted(0, s)) else MoreParameters(s, 0)
  }

  function CountedParameters(s: Stream): (r: Option<Counted>)
    ensures r.Some? ==> |r.value.rest| < |s|
  {
    var s :- Tok(s, LParen);
    var params :- Parameters(s);
    var s :- Tok(params.rest, RParen);
    Some(Counted(params.count, s))
  }

  function ParameterList(s: Stream): (r: Option<Stream>)
    ensures r.Some? ==> |r.value| < |s|
  {
    var params :- CountedParameters(s);
    Some(params.rest)
  }

  /** The same pairs where a comma may also stand behind the last one. */
  function GuardedParameters(s: Stream): (r: Option<Stream>)
    ensures r.Some? ==> |r.value| <= |s|
    decreases |s|
  {
    if Head(s) == RParen || Head(s) == Eof then Some(s)
    else
      var s :- Type(s);
      var s :- Tok(s, Identifier);
      var s :- if Head(s) == RParen then Some(s) else Tok(s, Comma);
      GuardedParameters(s)
  }

  /** The names of returns that are used, none of them twice. */
  function MoreUsedReturns(s: Stream, seen: set<string>, n: nat): (r: Option<Counted>)
    ensures r.Some? ==> |r.value.rest| < |s|
    decreases |s|
  {
    var name := HeadText(s);
    var s :- Tok(s, Identifier);
    if name != "_" && name in seen then None
    else if Head(s) == Comma then MoreUsedReturns(Tail(s), if name != "_" then seen + {name} else seen, n + 1)
    else Some(Counted(n + 1, s))
  }

  function UsedReturns(s: Stream): (r: Option<Counted>)
    ensures r.Some? ==> |r.value.rest| <= |s|
  {
    if Head(s) == RParen then Some(Counted(0, s)) else MoreUsedReturns(s, {}, 0)
  }

  function UsedList(s: Stream): (r: Option<Counted>)
    ensures r.Some? ==> |r.value.rest| < |s|
  {
    var s :- Tok(s, LParen);
    var used :- UsedReturns(s);
    var s :- Tok(used.rest, RParen);
    Some(Counted(used.count, s))
  }

  /** `with returns (...)` with at least one name. */
  function UsedReturnsClause(s: Stream): (r: Option<Counted>)
    ensures r.Some? ==> |r.value.rest| < |s|
  {
    var s :- Tok(s, KW_with);
    var used :- if StartsWith(s, "returns") then UsedList(Tail(s)) else None;
    if used.count == 0 then None else Some(used)
  }

  function ReturnBinding(s: Stream): (r: Option<Stream>)
    ensures r.Some? ==> |r.value| < |s|
  {
    if Head(s) != LParen then Tok(s, Identifier)
    else
      var s :- if Second(s) == RParen then Some(Tail(s)) else Names(Tail(s), Comma);
      Tok(s, RParen)
  }

  /** Further `:: name` pairs; a `::` with no name behind it is left alone. */
  function MoreParts(s: Stream): (r: Stream)
    ensures |r| <= |s|
    decreases |s|
  {
    if Head(s) == ColonColon && Second(s) == Identifier then MoreParts(Tail(Tail(s))) else s
  }

  function FunctionRef(s: Stream): (r: Option<Stream>)
    ensures r.Some? ==> |r.value| < |s|
  {
    var s :- Tok(s, Identifier);
    Some(MoreParts(s))
  }

  // ---------- Imports, aliases, lifetimes ----------

  function ImportSelection(s: Stream): (r: Option<Stream>)
    ensures r.Some? ==> |r.value| <= |s|
  {
    if Head(s) != LCurly then Some(s)
    else
      var s :- Names(Tail(s), Comma);
      Tok(s, RCurly)
  }

  function Import(s: Stream): (r: Option<Stream>)
    ensures r.Some? ==> |r.value| < |s|
  {
    var s :- Tok(s, KW_import);
    var s :- Names(s, Slash);
    var s :- ImportSelection(s);
    Tok(s, Semicolon)
  }

  function TypeAlias(s: Stream): (r: Option<Stream>)
    ensures r.Some? ==> |r.value| < |s|
  {
    var s :- Tok(s, KW_using);
    var s :- if IsStdlibToken(Head(s)) then Some(Tail(s)) else Tok(s, Identifier);
    var s :- Tok(s, Assign);
    var s :- Type(s);
    Tok(s, Semicolon)
  }

  function Lifetime(s: Stream): (r: Option<Stream>)
    ensures r.Some? ==> |r.value| < |s|
  {
    var s :- Tok(Tail(s), Identifier);
    var s :- Tok(s, Assign);
    var s :- LifetimeSpan(s);
    Tok(s, Semicolon)
  }

  function LifetimeSpan(s: Stream): (r: Option<Stream>)
    ensures r.Some? ==> |r.value| < |s|
  {
    var s :- Name(s);
    if Head(s) == DotDot && Second(s) == Identifier then Name(Tail(s)) else Some(Past(s, DotDot))
  }

  /** `std::import(`. */
  function StdImportHead(s: Stream): (r: Option<Stream>)
    ensures r.Some? ==> |r.value| < |s|
  {
    var s :- Tok(s, Identifier);
    var s :- Tok(s, ColonColon);
    var s :- Tok(s, KW_import);
    Tok(s, LParen)
  }

  function StdImport(s: Stream): (r: Option<Stream>)
    ensures r.Some? ==> |r.value| < |s|
  {
    var s :- StdImportHead(s);
    var s :- Tok(s, StringLiteral);
    var s :- if Head(s) == Comma then QualifiedName(Tail(s)) else Some(s);
    var s :- Tok(s, RParen);
    Tok(s, Semicolon)
  }

  function Instantiate(s: Stream): (r: Option<Stream>)
    ensures r.Some? ==> |r.value| < |s|
  {
    var s :- Tok(s, KW_instantiate);
    var s :- Type(s);
    Tok(s, Semicolon)
  }

  // ---------- Functions ----------

  function Binding(s: Stream): (r: Option<Stream>)
    ensures r.Some? ==> |r.value| <= |s|
  {
    if Head(s) == Assign then QualifiedName(Tail(s)) else Some(s)
  }

  /** The return type in front. */
  function CppFunction(s: Stream): (r: Option<Stream>)
    ensures r.Some? ==> |r.value| < |s|
  {
    var s :- Type(s);
    var s :- Name(s);
    var s :- ParameterList(s);
    var s :- Binding(Past(s, KW_const));
    var s :- HintsBehind(s, Arrow);
    Tok(s, Semicolon)
  }

  /** The return type behind an arrow. */
  function RustFunction(s: Stream): (r: Option<Stream>)
    ensures r.Some? ==> |r.value| < |s|
  {
    var s :- Name(s);
    var s :- ParameterList(s);
    var s :- Tok(Past(s, KW_const), Arrow);
    var s :- Returns(s);
    var s :- Binding(s);
    Tok(s, Semicolon)
  }

  /** Hints in place of a type, several returns in parentheses, or one type. */
  function ReturnShape(s: Stream): (r: Option<Counted>)
    ensures r.Some? ==> |r.value.rest| <= |s|
  {
    if StartsHint(s) then
      var s :- Hints(s);
      Some(Counted(0, s))
    else if Head(s) == LParen then CountedParameters(s)
    else
      var s :- Type(s);
      Some(Counted(0, s))
  }

  /** Of several returns, and of none of a single one, a selection may be named, no longer than they are. */
  function Returns(s: Stream): (r: Option<Stream>)
    ensures r.Some? ==> |r.value| <= |s|
  {
    var several := Head(s) == LParen;
    var shape :- ReturnShape(s);
    var s :- HintsBehind(shape.rest, Comma);
    if Head(s) == KW_with then Selection(s, several, shape.count) else Some(s)
  }

  function Selection(s: Stream, several: bool, params: nat): (r: Option<Stream>)
    ensures r.Some? ==> |r.value| < |s|
  {
    var used :- UsedReturnsClause(s);
    if several && used.count <= params then Some(used.rest) else None
  }

  function Operator(s: Stream): (r: Option<Stream>)
    ensures r.Some? ==> |r.value| < |s|
  {
    var s :- Tok(s, KW_fn);
    var s :- Tok(s, KW_operator);
    var s :- if IsOverloadable(Head(s)) then ParameterList(Tail(s)) else None;
    OperatorRest(s)
  }

  function OperatorRest(s: Stream): (r: Option<Stream>)
    ensures r.Some? ==> |r.value| < |s|
  {
    var s :- Tok(s, Arrow);
    var s :- Type(s);
    var s :- Binding(s);
    Tok(s, Semicolon)
  }

  /** A handler takes at most one value. */
  function Handler(s: Stream): (r: Option<Stream>)
    ensures r.Some? ==> |r.value| < |s|
  {
    var s :- Tok(s, KW_handler);
    var s :- Name(s);
    var params :- CountedParameters(s);
    var s :- if params.count <= 1 then Tok(params.rest, Arrow) else None;
    var s :- Type(s);
    Tok(s, Semicolon)
  }

  function ComptimeFunction(s: Stream): (r: Option<Stream>)
    ensures r.Some? ==> |r.value| < |s|
  {
    var s :- Tok(s, KW_fn);
    var s :- Tok(s, Identifier);
    var s :- Tok(s, LParen);
    var s :- GuardedParameters(s);
    var s :- Tok(s, RParen);
    var s :- Tok(s, Arrow);
    var s :- Type(s);
    var s :- Tok(s, LCurly);
    var s :- Expression(s);
    Tok(s, RCurly)
  }

  // ---------- Logic blocks ----------

  /** A pipeline or a list of operations in braces. */
  function LogicBlock(s: Stream): (r: Option<Stream>)
    ensures r.Some? ==> |r.value| < |s|
  {
    var s :- Tok(s, KW_fn);
    var s :- Name(s);
    var s :- Tok(s, LCurly);
    var s :- if StartsPipeline(s) then Edges(s) else Operations(s);
    Tok(s, RCurly)
  }

  function Flow(s: Stream): (r: Option<Stream>)
    ensures r.Some? ==> |r.value| < |s|
  {
    var s :- Tok(s, KW_flow);
    var s :- Name(s);
    var s :- Tok(s, LCurly);
    var s :- Edges(s);
    Tok(s, RCurly)
  }

  function Operations(s: Stream): (r: Option<Stream>)
    ensures r.Some? ==> |r.value| <= |s|
    decreases |s|
  {
    if Head(s) == RCurly || Head(s) == Eof then Some(s)
    else
      var s :- Operation(s);
      Operations(s)
  }

  /** An assignment or a call, perhaps with a stage in front. */
  function Operation(s: Stream): (r: Option<Stream>)
    ensures r.Some? ==> |r.value| < |s|
  {
    var s :- Stage(s);
    if Head(s) == Identifier && Second(s) == Assign then
      var s :- Expression(Tail(Tail(s)));
      Tok(s, Semicolon)
    else Invocation(s)
  }

  function Stage(s: Stream): (r: Option<Stream>)
    ensures r.Some? ==> |r.value| <= |s|
  {
    if Head(s) != KW_stage then Some(s)
    else
      var s :- Tok(Tail(s), LAngle);
      var number := HeadText(s);
      var s :- Tok(s, IntegerLiteral);
      if ParseInt(number).None? then None else Tok(s, RAngle)
  }

  /** The arguments of a call are any tokens up to the parenthesis. */
  function BehindArguments(s: Stream): (r: Stream)
    ensures |r| <= |s|
    decreases |s|
  {
    if Head(s) == RParen || Head(s) == Semicolon || Head(s) == Eof then s else BehindArguments(Tail(s))
  }

  function Invocation(s: Stream): (r: Option<Stream>)
    ensures r.Some? ==> |r.value| < |s|
  {
    var s :- FunctionRef(s);
    var s :- Tok(s, LParen);
    var s :- Tok(BehindArguments(s), RParen);
    var s :- if Head(s) == Arrow then ReturnBinding(Tail(s)) else Some(s);
    Tok(s, Semicolon)
  }

  // ---------- Constraints, adaptations, type functions ----------

  function Constraint(s: Stream): (r: Option<Stream>)
    ensures r.Some? ==> |r.value| < |s|
  {
    var s :- Tok(s, KW_constraint);
    var s :- Tok(s, Identifier);
    var s :- if Head(s) == Colon then Tok(Tail(s), Identifier) else Some(s);
    var s :- Tok(s, LCurly);
    var s :- ConstraintMembers(s);
    Tok(s, RCurly)
  }

  function ConstraintMembers(s: Stream): (r: Option<Stream>)
    ensures r.Some? ==> |r.value| <= |s|
    decreases |s|
  {
    if Head(s) == RCurly || Head(s) == Eof then Some(s)
    else
      var s :- ConstraintMember(s);
      ConstraintMembers(s)
  }

  function ConstraintMember(s: Stream): (r: Option<Stream>)
    ensures r.Some? ==> |r.value| < |s|
  {
    var s :- Type(s);
    var s :- Tok(s, Identifier);
    var s :- if Head(s) == LParen then FunctionMember(Tail(s)) else Some(s);
    Tok(s, Semicolon)
  }

  function FunctionMember(s: Stream): (r: Option<Stream>)
    ensures r.Some? ==> |r.value| < |s|
  {
    var s :- GuardedParameters(s);
    Tok(s, RParen)
  }

  function Adapt(s: Stream): (r: Option<Stream>)
    ensures r.Some? ==> |r.value| < |s|
  {
    var s :- Tok(s, KW_adapt);
    var s :- Tok(s, Identifier);
    var s :- Tok(s, KW_for);
    var s :- Type(s);
    var s :- Tok(s, LCurly);
    var s :- Mappings(s);
    Tok(s, RCurly)
  }

  function Mappings(s: Stream): (r: Option<Stream>)
    ensures r.Some? ==> |r.value| <= |s|
    decreases |s|
  {
    if Head(s) == RCurly || Head(s) == Eof then Some(s)
    else
      var s :- Mapping(s);
      Mappings(s)
  }

  function Mapping(s: Stream): (r: Option<Stream>)
    ensures r.Some? ==> |r.value| < |s|
  {
    var s :- Tok(s, Identifier);
    var s :- Tok(s, Assign);
    var s :- Tok(s, Identifier);
    Tok(s, Semicolon)
  }

  function TypeFunction(s: Stream): (r: Option<Stream>)
    ensures r.Some? ==> |r.value| < |s|
  {
    var s :- Tok(s, KW_typefn);
    var s :- Tok(s, Identifier);
    var s :- Tok(s, LParen);
    var s :- TypeFunctionParameters(s);
    var s :- Tok(s, RParen);
    var s :- Tok(s, Arrow);
    var s :- Tok(s, KW_typename);
    TypeFunctionBody(s)
  }

  function TypeFunctionBody(s: Stream): (r: Option<Stream>)
    ensures r.Some? ==> |r.value| < |s|
  {
    var s :- Tok(s, LCurly);
    var s :- Tok(s, KW_match);
    var s :- Tok(s, Identifier);
    var s :- Tok(s, LCurly);
    var s :- MatchArms(s);
    var s :- Tok(s, RCurly);
    Tok(s, RCurly)
  }

  /** The name behind `typename` is demanded, `typename` itself is not. */
  function TypeFunctionParameters(s: Stream): (r: Option<Stream>)
    ensures r.Some? ==> |r.value| <= |s|
    decreases |s|
  {
    if Head(s) == RParen || Head(s) == Eof then Some(s)
    else
      var named :- if Head(s) == KW_typename then Tok(Tail(s), Identifier) else Some(s);
      var rest :- if Head(named) == RParen then Some(named) else Tok(named, Comma);
      TypeFunctionParameters(rest)
  }

  function MatchArms(s: Stream): (r: Option<Stream>)
    ensures r.Some? ==> |r.value| <= |s|
    decreases |s|
  {
    if Head(s) == RCurly || Head(s) == Eof then Some(s)
    else
      var s :- if StartsWith(s, "_") then Some(Tail(s)) else Type(s);
      var s :- Tok(s, FatArrow);
      var s :- Type(s);
      MatchArms(Past(s, Comma))
  }

  // ---------- Template parameters ----------

  function TemplateParameters(s: Stream): (r: Option<Stream>)
    ensures r.Some? ==> |r.value| < |s|
  {
    var s :- Tok(s, LAngle);
    if Head(s) == RAngle then Some(Tail(s))
    else
      var s :- TemplateParameterList(s);
      Tok(s, RAngle)
  }

  function TemplateParameterList(s: Stream): (r: Option<Stream>)
    ensures r.Some? ==> |r.value| < |s|
    decreases |s|
  {
    var s :- TemplateParameter(s);
    if Head(s) == Comma then TemplateParameterList(Tail(s)) else Some(s)
  }

  function TemplateParameter(s: Stream): (r: Option<Stream>)
    ensures r.Some? ==> |r.value| < |s|
  {
    if Head(s) == KW_typename then TypeParameter(s)
    else if IsTypeStart(Head(s)) then ValueParameter(s)
    else if Head(s) == KW_template then TemplateTemplateParameter(s)
    else None
  }

  function TypeBehind(s: Stream, kind: Kind): (r: Option<Stream>)
    ensures r.Some? ==> |r.value| <= |s|
  {
    if Head(s) == kind then Type(Tail(s)) else Some(s)
  }

  function TypeParameter(s: Stream): (r: Option<Stream>)
    ensures r.Some? ==> |r.value| < |s|
  {
    var s :- Tok(s, KW_typename);
    var s :- Tok(Past(s, Ellipsis), Identifier);
    var s :- TypeBehind(s, Colon);
    TypeBehind(s, Assign)
  }

  function ValueParameter(s: Stream): (r: Option<Stream>)
    ensures r.Some? ==> |r.value| < |s|
  {
    var s :- Type(s);
    var s :- Tok(s, Identifier);
    if Head(s) != Assign then Some(s)
    else if ParseInt(HeadText(Tail(s))).None? then None
    else Tok(Tail(s), IntegerLiteral)
  }

  /** Each may be a `typename` with or without a name, or nothing. */
  function BehindTypenames(s: Stream): (r: Stream)
    ensures |r| <= |s|
    decreases |s|
  {
    var t := if Head(s) == KW_typename then Past(Tail(s), Identifier) else s;
    if Head(t) == Comma then BehindTypenames(Tail(t)) else t
  }

  function TemplateTemplateParameter(s: Stream): (r: Option<Stream>)
    ensures r.Some? ==> |r.value| < |s|
  {
    var s :- Tok(s, KW_template);
    var s :- Tok(s, LAngle);
    var s :- Tok(BehindTypenames(s), RAngle);
    var s :- Tok(s, KW_class);
    Tok(s, Identifier)
  }

  // ---------- Debug blocks ----------

  function Debug(s: Stream): (r: Option<Stream>)
    ensures r.Some? ==> |r.value| < |s|
  {
    var s :- Tok(Tail(s), Identifier);
    var s :- Tok(s, LCurly);
    var s :- DebugItems(s);
    Tok(s, RCurly)
  }

  function DebugItems(s: Stream): (r: Option<Stream>)
    ensures r.Some? ==> |r.value| <= |s|
    decreases |s|
  {
    if Head(s) == RCurly || Head(s) == Eof then Some(s)
    else
      var s :- DebugItem(s);
      DebugItems(s)
  }

  function DebugItem(s: Stream): (r: Option<Stream>)
    ensures r.Some? ==> |r.value| < |s|
  {
    if StartsWith(s, "view") then DebugView(Tail(s))
    else if StartsWith(s, "summary") then
      var s :- Tok(Tail(s), StringLiteral);
      Tok(s, Semicolon)
    else if StartsWith(s, "inactive_region") then InactiveRegion(Tail(s))
    else if StartsWith(s, "render") then Render(Tail(s))
    else None
  }

  function InactiveRegion(s: Stream): (r: Option<Stream>)
    ensures r.Some? ==> |r.value| < |s|
  {
    var s :- Slice(s);
    Tok(if StartsWith(s, "grayed") || StartsWith(s, "hidden") then Tail(s) else s, Semicolon)
  }

  function DebugView(s: Stream): (r: Option<Stream>)
    ensures r.Some? ==> |r.value| < |s|
  {
    var s :- Tok(s, Identifier);
    var s :- if StartsWith(s, "from") then Slice(Tail(s)) else None;
    Tok(s, Semicolon)
  }

  function Slice(s: Stream): (r: Option<Stream>)
    ensures r.Some? ==> |r.value| < |s|
  {
    var s :- Tok(s, Identifier);
    if Head(s) != LBracket then Some(s)
    else
      var s :- Bound(Tail(s));
      var s :- Tok(s, DotDot);
      var s :- Bound(s);
      Tok(s, RBracket)
  }

  function Bound(s: Stream): (r: Option<Stream>)
    ensures r.Some? ==> |r.value| < |s|
  {
    if ParseInt(HeadText(s)).None? then None else Tok(s, IntegerLiteral)
  }

  function Render(s: Stream): (r: Option<Stream>)
    ensures r.Some? ==> |r.value| < |s|
  {
    var s :- if StartsWith(s, "method") then RenderMethod(Tail(s)) else Some(s);
    if Head(s) == LCurly then RenderBody(s, 0) else None
  }

  function RenderMethod(s: Stream): (r: Option<Stream>)
    ensures r.Some? ==> |r.value| < |s|
  {
    var s :- Tok(s, Assign);
    Tok(s, Identifier)
  }

  /** Any tokens with their braces in pairs; a body may break off at the end of the file. */
  function RenderBody(s: Stream, depth: int): (r: Option<Stream>)
    ensures r.Some? ==> |r.value| < |s|
    decreases |s|
  {
    if Head(s) == Eof then None
    else
      var inside := if Head(s) == LCurly then depth + 1 else if Head(s) == RCurly then depth - 1 else depth;
      if inside > 0 && Second(s) != Eof then RenderBody(Tail(s), inside) else Some(Tail(s))
  }

  // ---------- Namespaces and their sections ----------

  function PathPart(s: Stream): (r: Option<Stream>)
    ensures r.Some? ==> |r.value| < |s|
  {
    if Head(s) == KW_internal then Some(Tail(s)) else Tok(s, Identifier)
  }

  function Path(s: Stream): (r: Option<Stream>)
    ensures r.Some? ==> |r.value| < |s|
    decreases |s|
  {
    var s :- PathPart(s);
    if Head(s) == ColonColon then Path(Tail(s)) else Some(s)
  }

  function Namespace(s: Stream): (r: Option<Stream>)
    ensures r.Some? ==> |r.value| < |s|
    decreases |s|, 3
  {
    var path :- Tok(s, KW_namespace);
    var open :- Path(path);
    var items :- Tok(open, LCurly);
    var close :- NamespaceItems(items);
    Tok(close, RCurly)
  }

  function NamespaceItems(s: Stream): (r: Option<Stream>)
    ensures r.Some? ==> |r.value| <= |s|
    decreases |s|, 3
  {
    if Head(s) == RCurly || Head(s) == Eof then Some(s)
    else
      var more :- NamespaceItem(s);
      NamespaceItems(more)
  }

  predicate StartsLifetime(s: Stream) {
    StartsWith(s, "lifetime") && Second(s) == Identifier
  }

  function NamespaceItem(s: Stream): (r: Option<Stream>)
    ensures r.Some? ==> |r.value| < |s|
    decreases |s|, 2
  {
    if StartsLifetime(s) then Lifetime(s)
    else if Head(s) == KW_handler then Handler(s)
    else if Head(s) == KW_flow then Flow(s)
    else if Head(s) == KW_fn then LogicBlock(s)
    else if IsVisibility(Head(s)) then Section(s)
    else None
  }

  function Section(s: Stream): (r: Option<Stream>)
    requires IsVisibility(Head(s))
    ensures r.Some? ==> |r.value| < |s|
    decreases |s|, 1
  {
    var members :- Tok(Tail(s), Colon);
    SectionMembers(members)
  }

  predicate SectionEnds(s: Stream) {
    Head(s) == Eof || Head(s) == RCurly || IsVisibility(Head(s))
  }

  function SectionMembers(s: Stream): (r: Option<Stream>)
    ensures r.Some? ==> |r.value| <= |s|
    decreases |s|, 7
  {
    if SectionEnds(s) then Some(s)
    else
      var more :- if Head(s) == KW_priority then PriorityHeader(s) else Member(s);
      SectionMembers(more)
  }

  // ---------- Members ----------

  function Member(s: Stream): (r: Option<Stream>)
    ensures r.Some? ==> |r.value| < |s|
    decreases |s|, 6
  {
    var (m, comptime) := Modifiers(s);
    if comptime && Head(m) == KW_if then ComptimeIf(m)
    else if comptime && Head(m) == KW_fn then ComptimeFunction(m)
    else PlainMember(m)
  }

  function ComptimeIf(s: Stream): (r: Option<Stream>)
    ensures r.Some? ==> |r.value| < |s|
    decreases |s|, 1
  {
    var paren :- Tok(s, KW_if);
    var condition :- Tok(paren, LParen);
    var close :- Expression(condition);
    var body :- Tok(close, RParen);
    var rest :- Braced(body);
    if Head(rest) == KW_else then Braced(Tail(rest)) else Some(rest)
  }

  /** Members in braces. */
  function Braced(s: Stream): (r: Option<Stream>)
    ensures r.Some? ==> |r.value| < |s|
    decreases |s|, 8
  {
    var members :- Tok(s, LCurly);
    var close :- Members(members);
    Tok(close, RCurly)
  }

  function Members(s: Stream): (r: Option<Stream>)
    ensures r.Some? ==> |r.value| <= |s|
    decreases |s|, 7
  {
    if Head(s) == RCurly || Head(s) == Eof then Some(s)
    else
      var more :- Member(s);
      Members(more)
  }

  predicate StartsStdImport(s: Stream) {
    StartsWith(s, "std") && Second(s) == ColonColon
  }

  predicate StartsNamespace(s: Stream) {
    Head(s) == KW_namespace || (Head(s) == KW_internal && Second(s) == KW_namespace)
  }

  function PlainMember(s: Stream): (r: Option<Stream>)
    ensures r.Some? ==> |r.value| < |s|
    decreases |s|, 5
  {
    if Head(s) == KW_fn then Fn(s)
    else if Head(s) == KW_handler then Handler(s)
    else if Head(s) == KW_flow then Flow(s)
    else if StartsStdImport(s) then StdImport(s)
    else if Head(s) == KW_using then TypeAlias(s)
    else if StartsNamespace(s) then InnerNamespace(s)
    else Definition(s)
  }

  function Fn(s: Stream): (r: Option<Stream>)
    ensures r.Some? ==> |r.value| < |s|
  {
    if Second(s) == KW_operator then Operator(s) else LogicBlock(s)
  }

  function InnerNamespace(s: Stream): (r: Option<Stream>)
    ensures r.Some? ==> |r.value| < |s|
    decreases |s|, 4
  {
    if Head(s) == KW_internal then Namespace(Tail(s)) else Namespace(s)
  }

  function Definition(s: Stream): (r: Option<Stream>)
    ensures r.Some? ==> |r.value| < |s|
    decreases |s|, 3
  {
    if Head(s) == KW_template then Template(s)
    else if Head(s) == KW_type || Head(s) == KW_class then TypeDefinition(s)
    else if Head(s) == KW_constraint then Constraint(s)
    else if Head(s) == KW_adapt then Adapt(s)
    else if Head(s) == KW_instantiate then Instantiate(s)
    else if Head(s) == KW_typefn then TypeFunction(s)
    else if Head(s) == KW_virtual then None
    else if StartsLifetime(s) then Lifetime(s)
    else if IsTypeStart(Head(s)) && Head(s) != KW_typename then Function(s)
    else None
  }

  /** A name in front of `(` or `.` starts the style with the return type behind. */
  function Function(s: Stream): (r: Option<Stream>)
    ensures r.Some? ==> |r.value| < |s|
  {
    if Head(s) == Identifier && (Second(s) == LParen || Second(s) == Dot) then RustFunction(s) else CppFunction(s)
  }

  // ---------- Templates and types ----------

  function Template(s: Stream): (r: Option<Stream>)
    ensures r.Some? ==> |r.value| < |s|
    decreases |s|, 2
  {
    var params :- Tok(s, KW_template);
    var body :- TemplateParameters(params);
    if Head(body) == KW_type || Head(body) == KW_class then TypeDefinition(body)
    else if Head(body) == KW_fn then LogicBlock(body)
    else if Head(body) == KW_void || Head(body) == KW_const then CppFunction(body)
    else if Head(body) == Identifier then Function(body)
    else None
  }

  function SpecializationTypes(s: Stream): (r: Option<Stream>)
    ensures r.Some? ==> |r.value| <= |s|
    decreases |s|
  {
    if Head(s) == RAngle || Head(s) == Eof then Some(s)
    else
      var s :- Type(s);
      var s :- if Head(s) == RAngle then Some(s) else Tok(s, Comma);
      SpecializationTypes(s)
  }

  function Specialization(s: Stream): (r: Option<Stream>)
    ensures r.Some? ==> |r.value| <= |s|
  {
    if Head(s) != LAngle then Some(s)
    else
      var s :- SpecializationTypes(Tail(s));
      Tok(s, RAngle)
  }

  /** The type derived from, if any, with the only inheritance there is. */
  function Derivation(s: Stream): (r: Option<Stream>)
    ensures r.Some? ==> |r.value| <= |s|
  {
    if Head(s) != Colon then Some(s)
    else
      var s :- Tok(Tail(s), KW_public);
      Type(s)
  }

  function TypeHead(s: Stream): (r: Option<Stream>)
    ensures r.Some? ==> |r.value| < |s|
  {
    var s :- Tok(s, Identifier);
    var s :- Specialization(s);
    var s :- Derivation(s);
    Tok(s, LCurly)
  }

  function TypeDefinition(s: Stream): (r: Option<Stream>)
    ensures r.Some? ==> |r.value| < |s|
    decreases |s|, 1
  {
    if Head(s) != KW_type && Head(s) != KW_class then None
    else
      var name := HeadText(Tail(s));
      var body :- TypeHead(Tail(s));
      var close :- TypeBody(body, name);
      Tok(close, RCurly)
  }

  function TypeBody(s: Stream, name: string): (r: Option<Stream>)
    ensures r.Some? ==> |r.value| <= |s|
    decreases |s|, 9
  {
    if Head(s) == RCurly || Head(s) == Eof then Some(s)
    else if !IsVisibility(Head(s)) then None
    else
      var more :- TypeSection(s, name);
      TypeBody(more, name)
  }

  function TypeSection(s: Stream, name: string): (r: Option<Stream>)
    requires IsVisibility(Head(s))
    ensures r.Some? ==> |r.value| < |s|
    decreases |s|, 8
  {
    var members :- Tok(Tail(s), Colon);
    TypeMembers(members, name)
  }

  function TypeMembers(s: Stream, name: string): (r: Option<Stream>)
    ensures r.Some? ==> |r.value| <= |s|
    decreases |s|, 8
  {
    if SectionEnds(s) then Some(s)
    else
      var more :- if Head(s) == KW_priority then PriorityHeader(s) else TypeMember(s, name);
      TypeMembers(more, name)
  }

  // ---------- Members of a type ----------

  function TypeMember(s: Stream, name: string): (r: Option<Stream>)
    ensures r.Some? ==> |r.value| < |s|
    decreases |s|, 7
  {
    if Head(s) == KW_external || Head(s) == KW_comptime then TypeMember(Tail(s), name)
    else if Head(s) == KW_type || Head(s) == KW_class || Head(s) == KW_template then Member(s)
    else if Head(s) == KW_virtual then None
    else if Head(s) == Tilde then Destructor(s, name)
    else if Head(s) == KW_explicit then ExplicitConstructor(s, name)
    else UsualMember(s, name)
  }

  function Destructor(s: Stream, name: string): (r: Option<Stream>)
    ensures r.Some? ==> |r.value| < |s|
  {
    var s :- Tok(s, Tilde);
    var s :- if HeadText(s) == name then Tok(s, Identifier) else None;
    NoParameters(s)
  }

  function NoParameters(s: Stream): (r: Option<Stream>)
    ensures r.Some? ==> |r.value| < |s|
  {
    var s :- Tok(s, LParen);
    var s :- Tok(s, RParen);
    Tok(s, Semicolon)
  }

  function ExplicitConstructor(s: Stream, name: string): (r: Option<Stream>)
    ensures r.Some? ==> |r.value| < |s|
  {
    var s :- Tok(s, KW_explicit);
    var s :- if HeadText(s) == name then Tok(s, Identifier) else None;
    ConstructorRest(s)
  }

  /** A body is not allowed. */
  function ConstructorRest(s: Stream): (r: Option<Stream>)
    ensures r.Some? ==> |r.value| < |s|
  {
    var s :- ParameterList(s);
    Tok(s, Semicolon)
  }

  function UsualMember(s: Stream, name: string): (r: Option<Stream>)
    ensures r.Some? ==> |r.value| < |s|
  {
    var m := Past(s, KW_static);
    if Head(m) == KW_fn && Second(m) == KW_operator then Operator(m)
    else if StartsWith(m, name) && Second(m) == LParen then (if Head(s) == KW_static then None else ConstructorRest(Tail(m)))
    else if Head(m) == KW_using then TypeAlias(m)
    else TypedMember(m)
  }

  /** A member function or a member variable, neither with a body nor with an initial value. */
  function TypedMember(s: Stream): (r: Option<Stream>)
    ensures r.Some? ==> |r.value| < |s|
  {
    var s :- if IsTypeStart(Head(s)) then Type(s) else None;
    var s :- Tok(s, Identifier);
    var s :- if Head(s) == LParen then MemberParameters(s) else Some(s);
    Tok(s, Semicolon)
  }

  function MemberParameters(s: Stream): (r: Option<Stream>)
    ensures r.Some? ==> |r.value| < |s|
  {
    var s :- ParameterList(s);
    Some(Past(s, KW_const))
  }

  // ---------- The file ----------

  function TopLevel(s: Stream): (r: Option<Stream>)
    ensures r.Some? ==> |r.value| < |s|
  {
    if Head(s) == KW_import then Import(s)
    else if StartsStdImport(s) then StdImport(s)
    else if Head(s) == KW_using then TypeAlias(s)
    else if StartsNamespace(s) then InnerNamespace(s)
    else if StartsWith(s, "debug") && Second(s) == Identifier then Debug(s)
    else None
  }

  /** The declarations of a file. */
  function File(s: Stream): (r: Option<Stream>)
    ensures r.Some? ==> r.value == []
    decreases |s|
  {
    if s == [] then Some([])
    else
      var more :- TopLevel(s);
      File(more)
  }
}
