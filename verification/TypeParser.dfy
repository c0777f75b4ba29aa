/** Type parsing, including the in-place split of a fused `>>`: a grammar function on token lists, and
    the recursive-descent methods that compute it. */
module TypeParser {
  import opened Tokens
  import opened Diagnostics
  import opened TokenBuffer
  import opened ExprParser
  import opened Options

  datatype Ownership = NoOwner | Owned | Shared | Weak
  datatype Modifier = NoModifier | Ref | Ptr

  /** `stdlib` is the stdlib keyword the type was written with; `value` marks a non-type argument. */
  datatype TypeNode = TypeNode(
    isConst: bool, ownership: Ownership, nameParts: seq<string>, stdlib: Option<string>,
    args: seq<TypeNode>, fields: seq<Field>, value: Option<nat>, modifier: Modifier, isVariadic: bool)

  datatype Field = Field(name: string, typ: TypeNode)

  const EMPTY := TypeNode(false, NoOwner, [], None, [], [], None, NoModifier, false)

  const ERROR_TYPE := EMPTY.(nameParts := ["error"])

  const INT_MAX := 0x7FFF_FFFF

  /** tryParseNonNegativeInt: all digits, at least one, and inside the range of an int. */
  function ParseInt(text: string): Option<nat> {
    if text == [] || !AllDigits(text) || Decimal(text) > INT_MAX then None else Some(Decimal(text))
  }

  predicate AllDigits(text: string) {
    forall i :: 0 <= i < |text| ==> '0' <= text[i] <= '9'
  }

  function Decimal(text: string): nat
    requires AllDigits(text)
  {
    if text == [] then 0
    else 10 * Decimal(text[..|text| - 1]) + (text[|text| - 1] as int - '0' as int)
  }

  predicate IsStdlibToken(kind: Kind) { kind == KW_stdlib || kind == KW_record || kind == KW_union }

  predicate IsNamePart(kind: Kind) {
    kind == Identifier || kind == KW_void || kind == KW_import || IsStdlibToken(kind)
  }

  /** Built-in scalar names never take template arguments. */
  predicate TakesArgs(name: string) {
    name != "void" && name != "int" && name != "bool" && name != "i64" && name != "f64" && name != "string"
  }

  // ---------- The grammar on token lists ----------

  function CloseAngle(s: Stream): (r: (Stream, nat))
    ensures |r.0| <= |s|
  {
    if Head(s) == RAngle then (Tail(s), 0)
    else if Head(s) == ShiftRight then ([Lexeme(RAngle, ">")] + Tail(s), 0)
    else (s, 1)
  }

  /** The parts behind the first one: each `::` demands a name. */
  function ParseParts(acc: Parsed<seq<string>>): (r: Parsed<seq<string>>)
    ensures |r.rest| <= |acc.rest| && |r.value| >= |acc.value|
    decreases |acc.rest|
  {
    if Head(acc.rest) == ColonColon then ParseParts(AddPart(acc)) else acc
  }

  function AddPart(acc: Parsed<seq<string>>): (r: Parsed<seq<string>>)
    requires Head(acc.rest) == ColonColon
    ensures |r.rest| < |acc.rest| && |r.value| > |acc.value|
  {
    var t := Tail(acc.rest);
    if IsNamePart(Head(t)) then Parsed(acc.value + [HeadText(t)], Tail(t), acc.errors)
    else Parsed(acc.value + [HeadText(t)], t, acc.errors + 1)
  }

  function ParseQualified(s: Stream): (r: Parsed<seq<string>>)
    ensures |r.rest| <= |s| && r.value != []
  {
    ParseParts(Parsed([HeadText(s)], Tail(s), 0))
  }

  function ParseQualifiers(s: Stream): (r: (TypeNode, Stream))
    ensures |r.1| <= |s|
  {
    var isConst := Head(s) == KW_const;
    var t := if isConst then Tail(s) else s;
    var owner := if Head(t) == KW_owned then Owned else if Head(t) == KW_shared then Shared
                 else if Head(t) == KW_weak then Weak else NoOwner;
    (EMPTY.(isConst := isConst, ownership := owner), if owner == NoOwner then t else Tail(t))
  }

  function ParseSuffix(t: TypeNode, s: Stream, errors: nat): (r: Parsed<TypeNode>)
    ensures |r.rest| <= |s|
  {
    var mod := if Head(s) == Amp then Ref else if Head(s) == Star then Ptr else NoModifier;
    var u := if mod == NoModifier then s else Tail(s);
    var variadic := Head(u) == Ellipsis;
    Parsed(t.(modifier := mod, isVariadic := variadic), if variadic then Tail(u) else u, errors)
  }

  function ParseType(s: Stream, depth: nat): (r: Parsed<TypeNode>)
    ensures |r.rest| <= |s|
    decreases |s|, 4
  {
    if depth >= MAX_RECURSION_DEPTH then Parsed(ERROR_TYPE, s, 1)
    else
      ParseGuarded(s, depth + 1)
  }

  function ParseGuarded(s: Stream, depth: nat): (r: Parsed<TypeNode>)
    ensures |r.rest| <= |s|
    decreases |s|, 3, 1
  {
    var q := ParseQualifiers(s);
    ParseNamed(q.0, q.1, depth)
  }

  /** The type behind its qualifiers. */
  function ParseNamed(t: TypeNode, s: Stream, depth: nat): (r: Parsed<TypeNode>)
    ensures |r.rest| <= |s|
    decreases |s|, 3, 0
  {
    if Head(s) == KW_record || Head(s) == KW_union then
      ParseComposite(t.(nameParts := [HeadText(s)], stdlib := Some(HeadText(s))), Tail(s), depth)
    else ParsePlain(t, s, depth)
  }

  function ParsePlain(t: TypeNode, s: Stream, depth: nat): (r: Parsed<TypeNode>)
    ensures |r.rest| <= |s|
    decreases |s|, 2
  {
    if Head(s) == KW_void then
      ParseArguments(t.(nameParts := [HeadText(s)]), Tail(s), 0, depth)
    else if Head(s) == KW_stdlib then
      ParseArguments(t.(nameParts := [HeadText(s)], stdlib := Some(HeadText(s))), Tail(s), 0, depth)
    else if Head(s) == Identifier || Head(s) == KW_typename then
      var name := ParseQualified(s);
      ParseArguments(t.(nameParts := name.value), name.rest, name.errors, depth)
    else Parsed(t, s, 1)
  }

  function ParseComposite(t: TypeNode, s: Stream, depth: nat): (r: Parsed<TypeNode>)
    ensures |r.rest| <= |s|
    decreases |s|, 9
  {
    var fields := ParseFields(s, depth);
    ParseSuffix(t.(fields := fields.value), fields.rest, fields.errors)
  }

  /** The optional `<...>` and the suffix of a named type. */
  function ParseArguments(t: TypeNode, s: Stream, errors: nat, depth: nat): (r: Parsed<TypeNode>)
    requires t.nameParts != []
    ensures |r.rest| <= |s|
    decreases |s|, 1
  {
    if Head(s) == LAngle && TakesArgs(t.nameParts[0]) then
      var args := ParseAngles(Tail(s), depth);
      ParseSuffix(t.(args := args.value), args.rest, errors + args.errors)
    else ParseSuffix(t, s, errors)
  }

  /** Template arguments behind their `<`, up to and including the closing angle. */
  function ParseAngles(s: Stream, depth: nat): (r: Parsed<seq<TypeNode>>)
    ensures |r.rest| <= |s|
    decreases |s|, 8
  {
    var args := if Head(s) == RAngle then Parsed([], s, 0) else ParseArgList(Parsed([], s, 0), depth);
    var close := CloseAngle(args.rest);
    Parsed(args.value, close.0, args.errors + close.1)
  }

  function ParseArgList(acc: Parsed<seq<TypeNode>>, depth: nat): (r: Parsed<seq<TypeNode>>)
    ensures |r.rest| <= |acc.rest|
    decreases |acc.rest|, 7
  {
    var more := AddArg(acc, depth);
    if Head(more.rest) == Comma then ParseArgList(more.(rest := Tail(more.rest)), depth) else more
  }

  function AddArg(acc: Parsed<seq<TypeNode>>, depth: nat): (r: Parsed<seq<TypeNode>>)
    ensures |r.rest| <= |acc.rest|
    decreases |acc.rest|, 6
  {
    var arg := ParseTemplateArg(acc.rest, depth);
    Parsed(acc.value + [arg.value], arg.rest, acc.errors + arg.errors)
  }

  function ParseTemplateArg(s: Stream, depth: nat): (r: Parsed<TypeNode>)
    ensures |r.rest| <= |s|
    decreases |s|, 5
  {
    if Head(s) == IntegerLiteral then
      var n := ParseInt(HeadText(s));
      Parsed(EMPTY.(nameParts := [HeadText(s)], value := Some(if n.Some? then n.value else 0)), Tail(s),
             if n.Some? then 0 else 1)
    else
      var arg := ParseType(s, depth);
      if Head(arg.rest) == DotDot && arg.value.nameParts != [] then
        var bounded := Second(arg.rest) == Identifier;
        Parsed(WithRange(arg.value, if bounded then HeadText(Tail(arg.rest)) else ""),
               if bounded then Tail(Tail(arg.rest)) else Tail(arg.rest), arg.errors)
      else arg
  }

  /** A range argument is kept as text in the last name part. */
  function WithRange(t: TypeNode, upper: string): TypeNode
    requires t.nameParts != []
  {
    var n := |t.nameParts| - 1;
    t.(nameParts := t.nameParts[n := t.nameParts[n] + ".." + upper])
  }

  /** The named-field list of record and union. */
  function ParseFields(s: Stream, depth: nat): (r: Parsed<seq<Field>>)
    ensures |r.rest| <= |s|
    decreases |s|, 8
  {
    if Head(s) != LAngle then Parsed([], s, 1)
    else if Second(s) == RAngle then Parsed([], Tail(Tail(s)), 0)
    else
      var fields := ParseFieldList(Parsed([], Tail(s), 0), depth);
      var close := CloseAngle(fields.rest);
      Parsed(fields.value, close.0, fields.errors + close.1)
  }

  function ParseFieldList(acc: Parsed<seq<Field>>, depth: nat): (r: Parsed<seq<Field>>)
    ensures |r.rest| <= |acc.rest|
    decreases |acc.rest|, 7
  {
    var more := AddField(acc, depth);
    if Head(more.rest) == Comma then ParseFieldList(more.(rest := Tail(more.rest)), depth) else more
  }

  function AddField(acc: Parsed<seq<Field>>, depth: nat): (r: Parsed<seq<Field>>)
    ensures |r.rest| <= |acc.rest|
    decreases |acc.rest|, 6
  {
    var field := ParseField(acc.rest, depth);
    Parsed(acc.value + [field.value], field.rest, acc.errors + field.errors)
  }

  function ParseField(s: Stream, depth: nat): (r: Parsed<Field>)
    ensures |r.rest| <= |s|
    decreases |s|, 5
  {
    var name := Expect(s, Identifier);
    var colon := Expect(name.0, Colon);
    var typ := ParseType(colon.0, depth);
    Parsed(Field(HeadText(s), typ.value), typ.rest, name.1 + colon.1 + typ.errors)
  }

  // ---------- The parser ----------

  method ConsumeCloseAngle(p: Parser, message: string)
    requires p.Valid()
    modifies p, p.diag
    ensures p.Valid() && p.recursionDepth == old(p.recursionDepth)
    ensures p.View() == CloseAngle(old(p.View())).0
    ensures p.diag.errorCount == Capped(old(p.diag.errorCount) + CloseAngle(old(p.View())).1)
  {
    hide Parser.Valid, Parser.View;
    p.CurrentIsHead();
    if p.Check(RAngle) {
      var _ := p.Advance();
    } else if p.Check(ShiftRight) {
      p.SplitShift();
    } else {
      p.Error(message);
    }
  }

  method ParseQualifiedName(p: Parser) returns (parts: seq<string>)
    requires p.Valid()
    modifies p, p.diag
    ensures Did(p, parts, ParseQualified(old(p.View())), old(p.diag.errorCount), old(p.recursionDepth))
  {
    hide Parser.Valid, Parser.View;
    ghost var before, depth := p.diag.errorCount, p.recursionDepth;
    p.CurrentIsHead();
    ghost var acc := Parsed([HeadText(p.View())], Tail(p.View()), 0);
    var first := p.Advance();
    parts := [first.text];
    p.CurrentIsHead();
    while p.Check(ColonColon)
      invariant Did(p, parts, acc, before, depth) && p.current.kind == Head(acc.rest)
      invariant ParseParts(acc) == ParseQualified(old(p.View()))
      decreases |p.View()|
    {
      parts := ParseNamePart(p, parts, acc, before);
      acc := AddPart(acc);
      p.CurrentIsHead();
    }
  }

  method ParseNamePart(p: Parser, parts: seq<string>, ghost acc: Parsed<seq<string>>, ghost before: nat)
    returns (more: seq<string>)
    requires Did(p, parts, acc, before, p.recursionDepth) && Head(acc.rest) == ColonColon
    modifies p, p.diag
    ensures Did(p, more, AddPart(acc), before, old(p.recursionDepth))
  {
    hide Parser.Valid, Parser.View;
    p.CurrentIsHead();
    var _ := p.Advance();
    p.CurrentIsHead();
    more := parts + [p.current.text];
    if IsNamePart(p.current.kind) {
      var _ := p.Advance();
    } else {
      var _ := p.Expect(Identifier, "expected identifier after '::'");
    }
  }

  method ParseTypeQualifiers(p: Parser) returns (t: TypeNode)
    requires p.Valid()
    modifies p
    ensures p.Valid() && p.recursionDepth == old(p.recursionDepth)
    ensures t == ParseQualifiers(old(p.View())).0 && p.View() == ParseQualifiers(old(p.View())).1
  {
    hide Parser.Valid, Parser.View;
    t := EMPTY;
    var isConst := p.Match(KW_const);
    if isConst {
      t := t.(isConst := true);
    }
    p.CurrentIsHead();
    if p.Check(KW_owned) {
      t := t.(ownership := Owned);
      var _ := p.Advance();
    } else if p.Check(KW_shared) {
      t := t.(ownership := Shared);
      var _ := p.Advance();
    } else if p.Check(KW_weak) {
      t := t.(ownership := Weak);
      var _ := p.Advance();
    }
  }

  /** Trailing reference, pointer and variadic markers. */
  method ParseTypeSuffix(p: Parser, bare: TypeNode) returns (t: TypeNode)
    requires p.Valid() && bare.modifier == NoModifier && !bare.isVariadic
    modifies p
    ensures p.Valid() && p.recursionDepth == old(p.recursionDepth)
    ensures Parsed(t, p.View(), 0) == ParseSuffix(bare, old(p.View()), 0)
  {
    hide Parser.Valid, Parser.View;
    t := bare;
    var isRef := p.Match(Amp);
    if isRef {
      t := t.(modifier := Ref);
    } else {
      var isPtr := p.Match(Star);
      if isPtr {
        t := t.(modifier := Ptr);
      }
    }
    var variadic := p.Match(Ellipsis);
    if variadic {
      t := t.(isVariadic := true);
    }
  }

  method ParseTypeNode(p: Parser) returns (t: TypeNode)
    requires p.Valid()
    modifies p, p.diag
    ensures Did(p, t, ParseType(old(p.View()), old(p.recursionDepth)), old(p.diag.errorCount), old(p.recursionDepth))
    decreases |p.View()|, 4
  {
    hide Parser.Valid, Parser.View, ParseGuarded;
    if p.recursionDepth >= MAX_RECURSION_DEPTH {
      p.Error("maximum recursion depth exceeded");
      t := ERROR_TYPE;
    } else {
      p.recursionDepth := p.recursionDepth + 1;
      t := ParseGuardedType(p);
      p.recursionDepth := p.recursionDepth - 1;
    }
  }

  method ParseGuardedType(p: Parser) returns (t: TypeNode)
    requires p.Valid()
    modifies p, p.diag
    ensures Did(p, t, ParseGuarded(old(p.View()), old(p.recursionDepth)), old(p.diag.errorCount), old(p.recursionDepth))
    decreases |p.View()|, 3, 1
  {
    hide Parser.Valid, Parser.View, ParseNamed;
    t := ParseTypeQualifiers(p);
    t := ParseNamedType(p, t);
  }

  method ParseNamedType(p: Parser, qualified: TypeNode) returns (t: TypeNode)
    requires p.Valid() && qualified.modifier == NoModifier && !qualified.isVariadic
    modifies p, p.diag
    ensures Did(p, t, ParseNamed(qualified, old(p.View()), old(p.recursionDepth)),
                old(p.diag.errorCount), old(p.recursionDepth))
    decreases |p.View()|, 3, 0
  {
    hide Parser.Valid, Parser.View, ParsePlain, ParseComposite;
    p.CurrentIsHead();
    t := qualified;
    if p.Check(KW_record) || p.Check(KW_union) {
      var keyword := p.Advance();
      t := ParseCompositeType(p, t.(nameParts := [keyword.text], stdlib := Some(keyword.text)));
    } else {
      t := ParsePlainType(p, t);
    }
  }

  method ParsePlainType(p: Parser, qualified: TypeNode) returns (t: TypeNode)
    requires p.Valid() && qualified.modifier == NoModifier && !qualified.isVariadic
    modifies p, p.diag
    ensures Did(p, t, ParsePlain(qualified, old(p.View()), old(p.recursionDepth)),
                old(p.diag.errorCount), old(p.recursionDepth))
    decreases |p.View()|, 2
  {
    hide Parser.Valid, Parser.View, ParseQualified;
    p.CurrentIsHead();
    t := qualified;
    if p.Check(KW_void) {
      var keyword := p.Advance();
      t := ParseTypeArguments(p, t.(nameParts := [keyword.text]));
    } else if p.Check(KW_stdlib) {
      var keyword := p.Advance();
      t := ParseTypeArguments(p, t.(nameParts := [keyword.text], stdlib := Some(keyword.text)));
    } else if p.Check(Identifier) || p.Check(KW_typename) {
      var parts := ParseQualifiedName(p);
      t := ParseTypeArguments(p, t.(nameParts := parts));
    } else {
      p.Error("expected type name");
    }
  }

  method ParseCompositeType(p: Parser, named: TypeNode) returns (t: TypeNode)
    requires p.Valid() && named.modifier == NoModifier && !named.isVariadic
    modifies p, p.diag
    ensures Did(p, t, ParseComposite(named, old(p.View()), old(p.recursionDepth)),
                old(p.diag.errorCount), old(p.recursionDepth))
    decreases |p.View()|, 9
  {
    hide Parser.Valid, Parser.View, ParseFields;
    var fields := ParseRecordFields(p);
    t := ParseTypeSuffix(p, named.(fields := fields));
  }

  method ParseTypeArguments(p: Parser, named: TypeNode) returns (t: TypeNode)
    requires p.Valid() && named.nameParts != [] && named.modifier == NoModifier && !named.isVariadic
    modifies p, p.diag
    ensures Did(p, t, ParseArguments(named, old(p.View()), 0, old(p.recursionDepth)),
                old(p.diag.errorCount), old(p.recursionDepth))
    decreases |p.View()|, 1
  {
    hide Parser.Valid, Parser.View, ParseAngles;
    p.CurrentIsHead();
    t := named;
    if p.Check(LAngle) && TakesArgs(t.nameParts[0]) {
      var _ := p.Advance();
      var args := ParseAngleArgs(p);
      t := t.(args := args);
    }
    t := ParseTypeSuffix(p, t);
  }

  method ParseAngleArgs(p: Parser) returns (args: seq<TypeNode>)
    requires p.Valid()
    modifies p, p.diag
    ensures Did(p, args, ParseAngles(old(p.View()), old(p.recursionDepth)),
                old(p.diag.errorCount), old(p.recursionDepth))
    decreases |p.View()|, 8
  {
    hide Parser.Valid, Parser.View, ParseArgList;
    p.CurrentIsHead();
    args := [];
    if !p.Check(RAngle) {
      args := ParseTemplateArgs(p);
    }
    ConsumeCloseAngle(p, "expected '>' after template arguments");
  }

  method ParseTemplateArgs(p: Parser) returns (args: seq<TypeNode>)
    requires p.Valid()
    modifies p, p.diag
    ensures Did(p, args, ParseArgList(Parsed([], old(p.View()), 0), old(p.recursionDepth)),
                old(p.diag.errorCount), old(p.recursionDepth))
    decreases |p.View()|, 7
  {
    hide Parser.Valid, Parser.View, AddArg;
    ghost var before, depth := p.diag.errorCount, p.recursionDepth;
    ghost var acc: Parsed<seq<TypeNode>> := Parsed([], p.View(), 0);
    args := [];
    p.CurrentIsHead();
    var more := true;
    while more
      invariant Did(p, args, acc, before, depth) && |acc.rest| <= |old(p.View())|
      invariant ParseArgList(Parsed([], old(p.View()), 0), depth) == if more then ParseArgList(acc, depth) else acc
      decreases |p.View()|, more
    {
      args := AppendArgument(p, args, acc, before);
      acc := AddArg(acc, depth);
      more := p.Match(Comma);
      if more {
        acc := acc.(rest := Tail(acc.rest));
      }
    }
  }

  method AppendArgument(p: Parser, args: seq<TypeNode>, ghost acc: Parsed<seq<TypeNode>>, ghost before: nat)
    returns (more: seq<TypeNode>)
    requires Did(p, args, acc, before, p.recursionDepth)
    modifies p, p.diag
    ensures Did(p, more, AddArg(acc, old(p.recursionDepth)), before, old(p.recursionDepth))
    decreases |p.View()|, 6
  {
    hide Parser.Valid, Parser.View, ParseTemplateArg;
    var arg := ParseTemplateArgument(p);
    more := args + [arg];
  }

  method ParseTemplateArgument(p: Parser) returns (arg: TypeNode)
    requires p.Valid()
    modifies p, p.diag
    ensures Did(p, arg, ParseTemplateArg(old(p.View()), old(p.recursionDepth)),
                old(p.diag.errorCount), old(p.recursionDepth))
    decreases |p.View()|, 5
  {
    hide Parser.Valid, Parser.View, ParseType, ParseInt;
    p.CurrentIsHead();
    if p.Check(IntegerLiteral) {
      var lit := p.Advance();
      var parsed := ParseInt(lit.text);
      if parsed.None? {
        p.Error("invalid non-type template argument");
      }
      return EMPTY.(nameParts := [lit.text], value := Some(if parsed.Some? then parsed.value else 0));
    }
    arg := ParseTypeNode(p);
    p.CurrentIsHead();
    if p.Check(DotDot) && arg.nameParts != [] {
      var _ := p.Advance();
      p.CurrentIsHead();
      if p.Check(Identifier) {
        var upper := p.Advance();
        arg := WithRange(arg, upper.text);
      } else {
        arg := WithRange(arg, "");
      }
    }
  }

  method ParseRecordFields(p: Parser) returns (fields: seq<Field>)
    requires p.Valid()
    modifies p, p.diag
    ensures Did(p, fields, ParseFields(old(p.View()), old(p.recursionDepth)),
                old(p.diag.errorCount), old(p.recursionDepth))
    decreases |p.View()|, 8
  {
    hide Parser.Valid, Parser.View, ParseFieldList;
    p.CurrentIsHead();
    fields := [];
    var open := p.Expect(LAngle, "expected '<' after composite stdlib type");
    if open.kind != LAngle {
      return;
    }
    p.CurrentIsHead();
    if p.Check(RAngle) {
      var _ := p.Advance();
      return;
    }
    fields := ParseFieldNodes(p);
    ConsumeCloseAngle(p, "expected '>' to close named-field list");
  }

  method ParseFieldNodes(p: Parser) returns (fields: seq<Field>)
    requires p.Valid()
    modifies p, p.diag
    ensures Did(p, fields, ParseFieldList(Parsed([], old(p.View()), 0), old(p.recursionDepth)),
                old(p.diag.errorCount), old(p.recursionDepth))
    decreases |p.View()|, 7
  {
    hide Parser.Valid, Parser.View, AddField;
    ghost var before, depth := p.diag.errorCount, p.recursionDepth;
    ghost var acc: Parsed<seq<Field>> := Parsed([], p.View(), 0);
    fields := [];
    p.CurrentIsHead();
    var more := true;
    while more
      invariant Did(p, fields, acc, before, depth) && |acc.rest| <= |old(p.View())|
      invariant ParseFieldList(Parsed([], old(p.View()), 0), depth) == if more then ParseFieldList(acc, depth) else acc
      decreases |p.View()|, more
    {
      fields := AppendField(p, fields, acc, before);
      acc := AddField(acc, depth);
      more := p.Match(Comma);
      if more {
        acc := acc.(rest := Tail(acc.rest));
      }
    }
  }

  method AppendField(p: Parser, fields: seq<Field>, ghost acc: Parsed<seq<Field>>, ghost before: nat)
    returns (more: seq<Field>)
    requires Did(p, fields, acc, before, p.recursionDepth)
    modifies p, p.diag
    ensures Did(p, more, AddField(acc, old(p.recursionDepth)), before, old(p.recursionDepth))
    decreases |p.View()|, 6
  {
    hide Parser.Valid, Parser.View, ParseField;
    var field := ParseFieldNode(p);
    more := fields + [field];
  }

  method ParseFieldNode(p: Parser) returns (field: Field)
    requires p.Valid()
    modifies p, p.diag
    ensures Did(p, field, ParseField(old(p.View()), old(p.recursionDepth)),
                old(p.diag.errorCount), old(p.recursionDepth))
    decreases |p.View()|, 5
  {
    hide Parser.Valid, Parser.View, ParseType;
    p.CurrentIsHead();
    var name := p.Expect(Identifier, "expected field name in named-field list");
    var _ := p.Expect(Colon, "expected ':' after field name");
    var typ := ParseTypeNode(p);
    field := Field(name.text, typ);
  }
}
