/** Printed types, fused. */
module TypePrinter {
  // The printer for types, streams with fused closing angles, and the exact condition under which the
  // type parser inverts the printer on them.

  import opened Tokens
  import opened TokenBuffer
  import opened ExprParser
  import opened Options
  import opened TypeParser
  import opened Spelling

  /** The keyword table of the lexer: the kind a word is given. */
  type Keywords = string -> Kind

  // ---------- The printer ----------

  predicate PartsOk(kw: Keywords, parts: seq<string>) {
    parts == [] || (IsNamePart(kw(parts[0])) && PartsOk(kw, parts[1..]))
  }

  /** The shapes a name can have, told by the kind of its first word. */
  predicate NameOk(kw: Keywords, t: TypeNode) {
    t.nameParts != [] &&
    var first := kw(t.nameParts[0]);
    if first == Identifier || first == KW_typename then t.stdlib == None && PartsOk(kw, t.nameParts[1..])
    else if first == KW_void then t.stdlib == None && |t.nameParts| == 1
    else IsStdlibToken(first) && t.stdlib == Some(t.nameParts[0]) && |t.nameParts| == 1
  }

  predicate IsComposite(kw: Keywords, t: TypeNode) {
    t.nameParts != [] && (kw(t.nameParts[0]) == KW_record || kw(t.nameParts[0]) == KW_union)
  }

  /** The size of a type, its own name apart. */
  function Size(t: TypeNode): nat
    decreases t, 1
  {
    1 + ArgsSize(t.args) + FieldsSize(t.fields)
  }

  function ArgsSize(args: seq<TypeNode>): nat
    decreases args, 0
  {
    if args == [] then 0 else 1 + Size(args[0]) + ArgsSize(args[1..])
  }

  function FieldsSize(fields: seq<Field>): nat
    decreases fields, 0
  {
    if fields == [] then 0 else 1 + Size(fields[0].typ) + FieldsSize(fields[1..])
  }

  // A range argument is kept by the parser as text, in the last part of the name.

  /** The place of the first two dots, or the end. */
  function DotsAt(name: string): (i: nat)
    ensures i <= |name| && (i < |name| ==> i + 2 <= |name| && name[i..i + 2] == "..")
  {
    if name == "" then 0 else if name[0] == '.' && |name| > 1 && name[1] == '.' then 0 else 1 + DotsAt(name[1..])
  }

  predicate HasDots(t: TypeNode) {
    t.nameParts != [] && DotsAt(t.nameParts[|t.nameParts| - 1]) < |t.nameParts[|t.nameParts| - 1]|
  }

  /** The type in front of the dots, and the name behind them. */
  function Lower(t: TypeNode): TypeNode
    requires HasDots(t)
  {
    var n := |t.nameParts| - 1;
    t.(nameParts := t.nameParts[n := t.nameParts[n][..DotsAt(t.nameParts[n])]])
  }

  function Upper(t: TypeNode): string
    requires HasDots(t)
  {
    var last := t.nameParts[|t.nameParts| - 1];
    last[DotsAt(last) + 2..]
  }

  lemma RangeJoins(t: TypeNode)
    requires HasDots(t)
    ensures Lower(t).nameParts != [] && WithRange(Lower(t), Upper(t)) == t
    ensures Nesting(Lower(t)) == Nesting(t) && Size(Lower(t)) == Size(t)
  {
    var n := |t.nameParts| - 1;
    var last := t.nameParts[n];
    assert last == last[..DotsAt(last)] + ".." + Upper(t);
    assert t.nameParts == t.nameParts[n := last[..DotsAt(last)]][n := last];
  }

  /** Types the grammar can express. */
  predicate Printable(kw: Keywords, t: TypeNode)
    decreases Size(t), 1
  {
    && NameOk(kw, t) && t.value == None
    && (if IsComposite(kw, t) then t.args == [] && FieldsOk(kw, t.fields)
        else t.fields == [] && ArgsOk(kw, t.args) && (t.args != [] ==> TakesArgs(t.nameParts[0])))
  }

  predicate ArgOk(kw: Keywords, t: TypeNode)
    decreases Size(t), 2
  {
    if t.value.Some? then
      |t.nameParts| == 1 && ParseInt(t.nameParts[0]) == t.value &&
      t == EMPTY.(nameParts := t.nameParts, value := t.value)
    else Printable(kw, t) || (HasDots(t) && Printable(kw, Lower(t)))
  }

  predicate ArgsOk(kw: Keywords, args: seq<TypeNode>)
    decreases ArgsSize(args), 0
  {
    args == [] || (ArgOk(kw, args[0]) && ArgsOk(kw, args[1..]))
  }

  predicate FieldsOk(kw: Keywords, fields: seq<Field>)
    decreases FieldsSize(fields), 0
  {
    fields == [] || (Printable(kw, fields[0].typ) && FieldsOk(kw, fields[1..]))
  }

  function Word(kw: Keywords, text: string): Stream { [Lexeme(kw(text), text)] }

  function PrintParts(kw: Keywords, parts: seq<string>): Stream {
    if parts == [] then [] else Sym(ColonColon) + (Word(kw, parts[0]) + PrintParts(kw, parts[1..]))
  }

  function PrintConst(t: TypeNode): Stream {
    if t.isConst then [Lexeme(KW_const, "const")] else []
  }

  function PrintOwner(t: TypeNode): Stream {
    match t.ownership
    case NoOwner => []
    case Owned => [Lexeme(KW_owned, "owned")]
    case Shared => [Lexeme(KW_shared, "shared")]
    case Weak => [Lexeme(KW_weak, "weak")]
  }

  function PrintModifier(t: TypeNode): Stream {
    match t.modifier
    case NoModifier => []
    case Ref => Sym(Amp)
    case Ptr => Sym(Star)
  }

  function PrintVariadic(t: TypeNode): Stream {
    if t.isVariadic then Sym(Ellipsis) else []
  }

  function Print(kw: Keywords, t: TypeNode): Stream
    requires Printable(kw, t)
    decreases Size(t), 2
  {
    PrintConst(t) + (PrintOwner(t) +
    (Word(kw, t.nameParts[0]) + (PrintParts(kw, t.nameParts[1..]) +
    (PrintBody(kw, t) + (PrintModifier(t) + PrintVariadic(t))))))
  }

  /** The angle-bracketed part: always there for record and union, only with arguments otherwise. */
  function PrintBody(kw: Keywords, t: TypeNode): Stream
    requires Printable(kw, t)
    decreases Size(t), 1
  {
    if IsComposite(kw, t) then Sym(LAngle) + (PrintFields(kw, t.fields) + Sym(RAngle))
    else if t.args == [] then []
    else Sym(LAngle) + (PrintArgs(kw, t.args) + Sym(RAngle))
  }

  function PrintArg(kw: Keywords, t: TypeNode): Stream
    requires ArgOk(kw, t)
    decreases Size(t), 3
  {
    if t.value.Some? then [Lexeme(IntegerLiteral, t.nameParts[0])]
    else if Printable(kw, t) then Print(kw, t)
    else Print(kw, Lower(t)) + (Sym(DotDot) + PrintUpper(t))
  }

  /** The upper end of a range may be missing. */
  function PrintUpper(t: TypeNode): Stream
    requires HasDots(t)
  {
    if Upper(t) == "" then [] else [Lexeme(Identifier, Upper(t))]
  }

  function PrintArgs(kw: Keywords, args: seq<TypeNode>): Stream
    requires ArgsOk(kw, args)
    decreases ArgsSize(args), 0
  {
    if args == [] then []
    else if |args| == 1 then PrintArg(kw, args[0])
    else PrintArg(kw, args[0]) + (Sym(Comma) + PrintArgs(kw, args[1..]))
  }

  function PrintField(kw: Keywords, f: Field): Stream
    requires Printable(kw, f.typ)
    decreases Size(f.typ), 4
  {
    [Lexeme(Identifier, f.name)] + (Sym(Colon) + Print(kw, f.typ))
  }

  function PrintFields(kw: Keywords, fields: seq<Field>): Stream
    requires FieldsOk(kw, fields)
    decreases FieldsSize(fields), 0
  {
    if fields == [] then []
    else if |fields| == 1 then PrintField(kw, fields[0])
    else PrintField(kw, fields[0]) + (Sym(Comma) + PrintFields(kw, fields[1..]))
  }

  function Max(a: nat, b: nat): nat { if a < b then b else a }

  /** How many types are nested inside `t`, along the deepest path. */
  function Nesting(t: TypeNode): nat
    decreases t, 1
  {
    Max(ArgNesting(t.args), FieldNesting(t.fields))
  }

  function ArgNesting(args: seq<TypeNode>): nat
    decreases args, 0
  {
    if args == [] then 0
    else Max(if args[0].value.Some? then 0 else 1 + Nesting(args[0]), ArgNesting(args[1..]))
  }

  function FieldNesting(fields: seq<Field>): nat
    decreases fields, 0
  {
    if fields == [] then 0 else Max(1 + Nesting(fields[0].typ), FieldNesting(fields[1..]))
  }

  // ---------- Fused closing angles ----------

  /** Every `>>` taken apart. Two streams spell the same nesting when they unfuse alike. */
  function Unfuse(s: Stream): Stream {
    if s == [] then [] else (if s[0].kind == ShiftRight then Sym(RAngle) + Sym(RAngle) else [s[0]]) + Unfuse(s[1..])
  }

  /** No `<` stands directly before a `>>` in front of the last `n` tokens, every `>>` counted as two. */
  predicate Clean(s: Stream, n: nat)
    decreases |s|
  {
    |Unfuse(s)| <= n || (!(Head(s) == LAngle && Second(s) == ShiftRight) && Clean(Tail(s), n))
  }

  lemma Heads(s: Stream)
    ensures Head(s) == Head(Unfuse(s)) || (Head(s) == ShiftRight && Head(Unfuse(s)) == RAngle)
    ensures s == [] <==> Unfuse(s) == []
  {
  }

  /** A token that is no closing angle stands at the head of the stream itself. */
  lemma Take(s: Stream, x: Lexeme, u: Stream, n: nat)
    requires n <= |u|
    requires Unfuse(s) == [x] + u && x.kind != RAngle
    ensures s != [] && s[0] == x && Unfuse(Tail(s)) == u
    ensures x.kind != LAngle ==> (Clean(s, n) <==> Clean(Tail(s), n))
    ensures x.kind == LAngle && Head(u) != RAngle ==> (Clean(s, n) <==> Clean(Tail(s), n))
  {
    assert Unfuse(s)[0] == x && Unfuse(s)[1..] == u;
    if s[0].kind != ShiftRight {
      assert Unfuse(s) == [s[0]] + Unfuse(s[1..]);
      assert Unfuse(s)[1..] == Unfuse(s[1..]);
      Heads(Tail(s));
    }
  }

  /** A closing angle is there to consume, whole or as the first half of a `>>`. */
  lemma TakeClose(s: Stream, u: Stream, n: nat)
    requires n <= |u|
    requires Unfuse(s) == Sym(RAngle) + u
    ensures var (rest, errors) := CloseAngle(s);
            errors == 0 && Unfuse(rest) == u && (Clean(s, n) <==> Clean(rest, n))
  {
    var rest := CloseAngle(s).0;
    assert Unfuse(s)[1..] == u;
    if s[0].kind == ShiftRight {
      assert rest[0] == Lexeme(RAngle, ">") && rest[1..] == s[1..];
      assert Unfuse(rest) == Sym(RAngle) + Unfuse(s[1..]);
      assert Unfuse(s) == Sym(RAngle) + (Sym(RAngle) + Unfuse(s[1..]));
      assert Unfuse(s)[1..] == Sym(RAngle) + Unfuse(s[1..]);
    } else {
      assert Unfuse(s)[1..] == Unfuse(s[1..]);
    }
  }

  /** The outcome of reading `v` off a stream that unfuses to its print and then `u`: without an
      error it is exactly that, and the part consumed held no `<` before a `>>`; an error means
      such a pair, or more nesting than the guard allows. */
  ghost predicate Reads<T>(r: Parsed<T>, v: T, s: Stream, u: Stream, fits: bool, n: nat) {
    && (r.errors == 0 ==> r.value == v && Unfuse(r.rest) == u && (Clean(s, n) <==> Clean(r.rest, n)) && fits)
    && (r.errors > 0 ==> !fits || !Clean(s, n))
  }

  /** Kinds that would extend a type; none of them may follow it. */
  predicate TypeEnds(u: Stream) {
    Head(u) != ColonColon && Head(u) != LAngle && Head(u) != Amp && Head(u) != Star &&
    Head(u) != Ellipsis
  }

  // ---------- Proof: the pieces of one type ----------

  lemma ConstReads(t: TypeNode, s: Stream, u: Stream, n: nat)
    requires n <= |u|
    requires Unfuse(s) == PrintConst(t) + u && Head(u) != KW_const
    ensures (Head(s) == KW_const) == t.isConst
    ensures var rest := if t.isConst then Tail(s) else s;
            Unfuse(rest) == u && (Clean(s, n) <==> Clean(rest, n))
  {
    if t.isConst {
      Take(s, Lexeme(KW_const, "const"), u, n);
    } else {
      Heads(s);
      assert [] + u == u;
    }
  }

  lemma QualifiersRead(t: TypeNode, s: Stream, u: Stream, n: nat)
    requires n <= |u|
    requires Unfuse(s) == PrintConst(t) + (PrintOwner(t) + u)
    requires Head(u) != KW_const && Head(u) != KW_owned && Head(u) != KW_shared && Head(u) != KW_weak
    ensures var (q, rest) := ParseQualifiers(s);
            q == EMPTY.(isConst := t.isConst, ownership := t.ownership) &&
            Unfuse(rest) == u && (Clean(s, n) <==> Clean(rest, n))
  {
    assert Head(PrintOwner(t) + u) != KW_const by {
      if t.ownership == NoOwner { assert PrintOwner(t) + u == u; }
    }
    ConstReads(t, s, PrintOwner(t) + u, n);
    OwnerReads(t, if t.isConst then Tail(s) else s, u, n);
  }

  lemma OwnerReads(t: TypeNode, s: Stream, u: Stream, n: nat)
    requires n <= |u|
    requires Unfuse(s) == PrintOwner(t) + u && Head(u) != KW_owned && Head(u) != KW_shared && Head(u) != KW_weak
    ensures (Head(s) == KW_owned) == (t.ownership == Owned) && (Head(s) == KW_shared) == (t.ownership == Shared)
    ensures (Head(s) == KW_weak) == (t.ownership == Weak)
    ensures var rest := if t.ownership == NoOwner then s else Tail(s);
            Unfuse(rest) == u && (Clean(s, n) <==> Clean(rest, n))
  {
    if t.ownership == NoOwner {
      assert PrintOwner(t) + u == u;
      Heads(s);
    } else {
      Take(s, PrintOwner(t)[0], u, n);
    }
  }

  lemma SuffixReads(t: TypeNode, bare: TypeNode, s: Stream, u: Stream, errors: nat, n: nat)
    requires n <= |u|
    requires Unfuse(s) == PrintModifier(t) + (PrintVariadic(t) + u) && TypeEnds(u)
    ensures var r := ParseSuffix(bare, s, errors);
            r.value == bare.(modifier := t.modifier, isVariadic := t.isVariadic) && r.errors == errors &&
            Unfuse(r.rest) == u && (Clean(s, n) <==> Clean(r.rest, n))
  {
    var v := PrintVariadic(t) + u;
    ModifierReads(t, s, v, u, n);
    VariadicReads(t, if t.modifier == NoModifier then s else Tail(s), u, n);
  }

  lemma VariadicReads(t: TypeNode, s: Stream, u: Stream, n: nat)
    requires n <= |u|
    requires Unfuse(s) == PrintVariadic(t) + u && Head(u) != Ellipsis
    ensures (Head(s) == Ellipsis) == t.isVariadic
    ensures var rest := if t.isVariadic then Tail(s) else s;
            Unfuse(rest) == u && (Clean(s, n) <==> Clean(rest, n))
  {
    if t.isVariadic {
      Take(s, Sym(Ellipsis)[0], u, n);
    } else {
      Heads(s);
      assert [] + u == u;
    }
  }

  lemma ModifierReads(t: TypeNode, s: Stream, v: Stream, u: Stream, n: nat)
    requires n <= |u|
    requires v == PrintVariadic(t) + u && TypeEnds(u)
    requires Unfuse(s) == PrintModifier(t) + v
    ensures (Head(s) == Amp) == (t.modifier == Ref) && (Head(s) == Star) == (t.modifier == Ptr)
    ensures var rest := if t.modifier == NoModifier then s else Tail(s);
            Unfuse(rest) == v && (Clean(s, n) <==> Clean(rest, n))
  {
    if t.modifier == NoModifier {
      assert [] + v == v;
      assert t.isVariadic || v == u;
      Heads(s);
    } else {
      Take(s, PrintModifier(t)[0], v, n);
    }
  }

  lemma {:induction false} PartsRead(kw: Keywords, acc: seq<string>, parts: seq<string>, s: Stream, u: Stream, n: nat)
    requires n <= |u|
    requires PartsOk(kw, parts) && Unfuse(s) == PrintParts(kw, parts) + u && Head(u) != ColonColon
    ensures var r := ParseParts(Parsed(acc, s, 0));
            r.value == acc + parts && r.errors == 0 && Unfuse(r.rest) == u && (Clean(s, n) <==> Clean(r.rest, n))
    decreases |parts|
  {
    hide Unfuse, Clean;
    if parts == [] {
      assert PrintParts(kw, parts) + u == u && acc + parts == acc;
      Heads(s);
    } else {
      var more := PrintParts(kw, parts[1..]) + u;
      Reassociate(Sym(ColonColon), Word(kw, parts[0]), PrintParts(kw, parts[1..]), u);
      Take(s, Sym(ColonColon)[0], Word(kw, parts[0]) + more, n);
      Take(Tail(s), Lexeme(kw(parts[0]), parts[0]), more, n);
      PartsRead(kw, acc + [parts[0]], parts[1..], Tail(Tail(s)), u, n);
      assert acc + [parts[0]] + parts[1..] == acc + parts;
      assert AddPart(Parsed(acc, s, 0)) == Parsed(acc + [parts[0]], Tail(Tail(s)), 0);
    }
  }

  // ---------- Proof: errors are never taken back ----------

  lemma {:induction false} ArgErrorsGrow(acc: Parsed<seq<TypeNode>>, depth: nat)
    ensures ParseArgList(acc, depth).errors >= AddArg(acc, depth).errors
    decreases |acc.rest|
  {
    var more := AddArg(acc, depth);
    if Head(more.rest) == Comma {
      ArgErrorsGrow(more.(rest := Tail(more.rest)), depth);
    }
  }

  lemma {:induction false} FieldErrorsGrow(acc: Parsed<seq<Field>>, depth: nat)
    ensures ParseFieldList(acc, depth).errors >= AddField(acc, depth).errors
    decreases |acc.rest|
  {
    var more := AddField(acc, depth);
    if Head(more.rest) == Comma {
      FieldErrorsGrow(more.(rest := Tail(more.rest)), depth);
    }
  }

  // ---------- Proof: whole types ----------

  predicate Fits(nesting: nat, depth: nat) { depth + nesting <= MAX_RECURSION_DEPTH }

  /** A type starts with a word, never with a closing angle. */
  lemma PrintStarts(kw: Keywords, t: TypeNode, u: Stream)
    requires Printable(kw, t)
    ensures Head(Print(kw, t) + u) != RAngle && Head(Print(kw, t) + u) != IntegerLiteral
  {
    assert Print(kw, t) != [] && Print(kw, t)[0].kind != RAngle && Print(kw, t)[0].kind != IntegerLiteral by {
      if !t.isConst && t.ownership == NoOwner {
        assert Print(kw, t)[0] == Word(kw, t.nameParts[0])[0];
      }
    }
  }

  lemma ArgStarts(kw: Keywords, args: seq<TypeNode>, u: Stream)
    requires ArgsOk(kw, args) && args != []
    ensures Head(PrintArgs(kw, args) + u) != RAngle
  {
    var first := PrintArg(kw, args[0]);
    if args[0].value.None? {
      var typ := if Printable(kw, args[0]) then args[0] else Lower(args[0]);
      PrintStarts(kw, typ, []);
      assert Print(kw, typ) + [] == Print(kw, typ);
    }
    assert PrintArgs(kw, args)[0] == first[0];
  }

  lemma {:induction false} TypeReads(kw: Keywords, t: TypeNode, s: Stream, u: Stream, depth: nat, n: nat)
    requires n <= |u|
    requires Printable(kw, t) && depth <= MAX_RECURSION_DEPTH
    requires Unfuse(s) == Print(kw, t) + u && TypeEnds(u)
    ensures Reads(ParseType(s, depth), t, s, u, Fits(Nesting(t), depth + 1), n)
    decreases Size(t), 9
  {
    if depth < MAX_RECURSION_DEPTH {
      GuardedReads(kw, t, s, u, depth + 1, n);
    } else {
      assert ParseType(s, depth).errors == 1;
    }
  }

  lemma {:induction false} GuardedReads(kw: Keywords, t: TypeNode, s: Stream, u: Stream, depth: nat, n: nat)
    requires n <= |u|
    requires Printable(kw, t) && depth <= MAX_RECURSION_DEPTH
    requires Unfuse(s) == Print(kw, t) + u && TypeEnds(u)
    ensures Reads(ParseGuarded(s, depth), t, s, u, Fits(Nesting(t), depth), n)
    decreases Size(t), 8, 1
  {
    var word, tail := Word(kw, t.nameParts[0]), PrintParts(kw, t.nameParts[1..]) + AfterName(kw, t, u);
    PrintRegroups(kw, t, u);
    SymLikeHead(word[0], tail);
    QualifiersRead(t, s, word + tail, n);
    NamedReads(kw, t, ParseQualifiers(s).1, u, depth, n);
  }

  lemma SymLikeHead(x: Lexeme, more: Stream)
    ensures Head([x] + more) == x.kind
  {
  }

  lemma PrintRegroups(kw: Keywords, t: TypeNode, u: Stream)
    requires Printable(kw, t)
    ensures Print(kw, t) + u == PrintConst(t) + (PrintOwner(t) + (Word(kw, t.nameParts[0]) +
            (PrintParts(kw, t.nameParts[1..]) + AfterName(kw, t, u))))
  {
    var v, m, b := PrintVariadic(t), PrintModifier(t), PrintBody(kw, t);
    var p, w, o := PrintParts(kw, t.nameParts[1..]), Word(kw, t.nameParts[0]), PrintOwner(t);
    Assoc(m, v, u);
    Assoc(b, m + v, u);
    Assoc(p, b + (m + v), u);
    Assoc(w, p + (b + (m + v)), u);
    Assoc(o, w + (p + (b + (m + v))), u);
    Assoc(PrintConst(t), o + (w + (p + (b + (m + v)))), u);
  }

  /** What stands behind a name: the angle-bracketed part and the suffix. */
  function AfterName(kw: Keywords, t: TypeNode, u: Stream): Stream
    requires Printable(kw, t)
  {
    PrintBody(kw, t) + (PrintModifier(t) + (PrintVariadic(t) + u))
  }

  /** The type as it is before its body and suffix are read. */
  function Bare(t: TypeNode): TypeNode {
    t.(args := [], fields := [], modifier := NoModifier, isVariadic := false)
  }

  lemma AfterNameHead(kw: Keywords, t: TypeNode, u: Stream)
    requires Printable(kw, t) && TypeEnds(u)
    ensures Head(AfterName(kw, t, u)) != ColonColon
    ensures PrintBody(kw, t) == [] ==> Head(AfterName(kw, t, u)) != LAngle
  {
    var v := PrintVariadic(t) + u;
    assert t.isVariadic || v == u;
    assert t.modifier != NoModifier || PrintModifier(t) + v == v;
    assert PrintBody(kw, t) != [] || AfterName(kw, t, u) == PrintModifier(t) + v;
  }

  lemma {:induction false} NamedReads(kw: Keywords, t: TypeNode, s: Stream, u: Stream, depth: nat, n: nat)
    requires n <= |u|
    requires Printable(kw, t) && depth <= MAX_RECURSION_DEPTH && TypeEnds(u)
    requires Unfuse(s) == Word(kw, t.nameParts[0]) + (PrintParts(kw, t.nameParts[1..]) + AfterName(kw, t, u))
    ensures Reads(ParseNamed(EMPTY.(isConst := t.isConst, ownership := t.ownership), s, depth), t, s, u,
                  Fits(Nesting(t), depth), n)
    decreases Size(t), 8, 0
  {
    var q := EMPTY.(isConst := t.isConst, ownership := t.ownership);
    var parts, after := PrintParts(kw, t.nameParts[1..]), AfterName(kw, t, u);
    var word := Lexeme(kw(t.nameParts[0]), t.nameParts[0]);
    Take(s, word, parts + after, n);
    AfterNameHead(kw, t, u);
    assert t.nameParts == [t.nameParts[0]] + t.nameParts[1..];
    if word.kind == Identifier || word.kind == KW_typename {
      PartsRead(kw, [t.nameParts[0]], t.nameParts[1..], Tail(s), after, n);
      ArgumentsRead(kw, t, ParseQualified(s).rest, u, depth, n);
      QualifiedNamed(kw, t, s, depth);
    } else {
      assert parts + after == after && t.nameParts == [t.nameParts[0]];
      if IsComposite(kw, t) {
        CompositeReads(kw, t, Tail(s), u, depth, n);
      } else {
        ArgumentsRead(kw, t, Tail(s), u, depth, n);
      }
      KeywordNamed(kw, t, s, depth);
    }
  }

  lemma QualifiedNamed(kw: Keywords, t: TypeNode, s: Stream, depth: nat)
    requires Printable(kw, t) && (Head(s) == Identifier || Head(s) == KW_typename)
    requires kw(t.nameParts[0]) == Head(s)
    requires ParseQualified(s).value == t.nameParts && ParseQualified(s).errors == 0
    ensures ParseNamed(EMPTY.(isConst := t.isConst, ownership := t.ownership), s, depth) ==
            ParseArguments(Bare(t), ParseQualified(s).rest, 0, depth)
  {
    assert EMPTY.(isConst := t.isConst, ownership := t.ownership, nameParts := t.nameParts) == Bare(t);
  }

  lemma KeywordNamed(kw: Keywords, t: TypeNode, s: Stream, depth: nat)
    requires Printable(kw, t) && s != [] && s[0] == Lexeme(kw(t.nameParts[0]), t.nameParts[0])
    requires Head(s) != Identifier && Head(s) != KW_typename && t.nameParts == [t.nameParts[0]]
    ensures ParseNamed(EMPTY.(isConst := t.isConst, ownership := t.ownership), s, depth) ==
            if IsComposite(kw, t) then ParseComposite(Bare(t), Tail(s), depth)
            else ParseArguments(Bare(t), Tail(s), 0, depth)
  {
    assert EMPTY.(isConst := t.isConst, ownership := t.ownership, nameParts := t.nameParts, stdlib := t.stdlib) == Bare(t);
  }

  lemma {:induction false} CompositeReads(kw: Keywords, t: TypeNode, s: Stream, u: Stream, depth: nat, n: nat)
    requires n <= |u|
    requires Printable(kw, t) && IsComposite(kw, t) && depth <= MAX_RECURSION_DEPTH && TypeEnds(u)
    requires Unfuse(s) == AfterName(kw, t, u)
    ensures Reads(ParseComposite(Bare(t), s, depth), t, s, u, Fits(Nesting(t), depth), n)
    decreases Size(t), 7
  {
    var suffix := PrintModifier(t) + (PrintVariadic(t) + u);
    Reassociate(Sym(LAngle), PrintFields(kw, t.fields), Sym(RAngle), suffix);
    FieldsRead(kw, t.fields, s, suffix, depth, n);
    var fields := ParseFields(s, depth);
    if fields.errors == 0 {
      SuffixReads(t, Bare(t).(fields := fields.value), fields.rest, u, 0, n);
    }
  }

  lemma {:induction false} ArgumentsRead(kw: Keywords, t: TypeNode, s: Stream, u: Stream, depth: nat, n: nat)
    requires n <= |u|
    requires Printable(kw, t) && !IsComposite(kw, t) && depth <= MAX_RECURSION_DEPTH && TypeEnds(u)
    requires Unfuse(s) == AfterName(kw, t, u)
    ensures Reads(ParseArguments(Bare(t), s, 0, depth), t, s, u, Fits(Nesting(t), depth), n)
    decreases Size(t), 7
  {
    var suffix := PrintModifier(t) + (PrintVariadic(t) + u);
    if t.args == [] {
      AfterNameHead(kw, t, u);
      Heads(s);
      assert AfterName(kw, t, u) == suffix;
      SuffixReads(t, Bare(t), s, u, 0, n);
    } else {
      var inside := PrintArgs(kw, t.args) + (Sym(RAngle) + suffix);
      Reassociate(Sym(LAngle), PrintArgs(kw, t.args), Sym(RAngle), suffix);
      ArgStarts(kw, t.args, Sym(RAngle) + suffix);
      Take(s, Sym(LAngle)[0], inside, n);
      AnglesRead(kw, t.args, Tail(s), suffix, depth, n);
      var args := ParseAngles(Tail(s), depth);
      if args.errors == 0 {
        SuffixReads(t, Bare(t).(args := args.value), args.rest, u, 0, n);
      }
    }
  }

  lemma {:induction false} AnglesRead(kw: Keywords, args: seq<TypeNode>, s: Stream, u: Stream, depth: nat, n: nat)
    requires n <= |u|
    requires ArgsOk(kw, args) && args != [] && depth <= MAX_RECURSION_DEPTH
    requires Unfuse(s) == PrintArgs(kw, args) + (Sym(RAngle) + u)
    ensures Reads(ParseAngles(s, depth), args, s, u, Fits(ArgNesting(args), depth), n)
    decreases ArgsSize(args), 1
  {
    SymHead(RAngle, u);
    ArgStarts(kw, args, Sym(RAngle) + u);
    Heads(s);
    ArgListReads(kw, [], args, s, Sym(RAngle) + u, depth, n);
    assert [] + args == args;
    var list := ParseArgList(Parsed([], s, 0), depth);
    if list.errors == 0 {
      TakeClose(list.rest, u, n);
    }
  }

  lemma {:induction false} ArgListReads(kw: Keywords, done: seq<TypeNode>, args: seq<TypeNode>, s: Stream, u: Stream, depth: nat, n: nat)
    requires n <= |u|
    requires ArgsOk(kw, args) && args != [] && depth <= MAX_RECURSION_DEPTH
    requires Unfuse(s) == PrintArgs(kw, args) + u && Head(u) == RAngle
    ensures Reads(ParseArgList(Parsed(done, s, 0), depth), done + args, s, u, Fits(ArgNesting(args), depth), n)
    decreases ArgsSize(args), 0
  {
    hide Unfuse, Clean, ParseTemplateArg, PrintArg, ArgOk;
    var more := if |args| == 1 then u else Sym(Comma) + (PrintArgs(kw, args[1..]) + u);
    if |args| > 1 {
      SymHead(Comma, PrintArgs(kw, args[1..]) + u);
      Reassociate(PrintArg(kw, args[0]), Sym(Comma), PrintArgs(kw, args[1..]), u);
    }
    ArgReads(kw, args[0], s, more, depth, n);
    ArgErrorsGrow(Parsed(done, s, 0), depth);
    FirstOff(done, args);
    var next := AddArg(Parsed(done, s, 0), depth);
    if next.errors == 0 {
      Heads(next.rest);
      if |args| > 1 {
        Take(next.rest, Sym(Comma)[0], PrintArgs(kw, args[1..]) + u, n);
        ArgListReads(kw, done + [args[0]], args[1..], Tail(next.rest), u, depth, n);
      }
    }
  }

  lemma FirstOff(done: seq<TypeNode>, args: seq<TypeNode>)
    requires args != []
    ensures done + args == if |args| == 1 then done + [args[0]] else done + [args[0]] + args[1..]
  {
  }

  lemma {:induction false} ArgReads(kw: Keywords, arg: TypeNode, s: Stream, u: Stream, depth: nat, n: nat)
    requires n <= |u|
    requires ArgOk(kw, arg) && depth <= MAX_RECURSION_DEPTH
    requires Unfuse(s) == PrintArg(kw, arg) + u && (Head(u) == RAngle || Head(u) == Comma)
    ensures Reads(ParseTemplateArg(s, depth), arg, s, u, arg.value.Some? || Fits(1 + Nesting(arg), depth), n)
    decreases Size(arg), 11
  {
    if arg.value.Some? {
      Take(s, Lexeme(IntegerLiteral, arg.nameParts[0]), u, n);
      assert HeadText(s) == arg.nameParts[0];
      assert ParseTemplateArg(s, depth).value == arg && ParseTemplateArg(s, depth).errors == 0;
    } else if Printable(kw, arg) {
      hide Unfuse, Clean, ParseType;
      TypeReads(kw, arg, s, u, depth, n);
      PrintStarts(kw, arg, u);
      Heads(s);
      var r := ParseType(s, depth);
      if r.errors == 0 {
        Heads(r.rest);
      }
    } else {
      RangeReads(kw, arg, s, u, depth, n);
    }
  }

  lemma {:induction false} RangeReads(kw: Keywords, arg: TypeNode, s: Stream, u: Stream, depth: nat, n: nat)
    requires n <= |u|
    requires arg.value.None? && HasDots(arg) && Printable(kw, Lower(arg)) && depth <= MAX_RECURSION_DEPTH
    requires Unfuse(s) == Print(kw, Lower(arg)) + (Sym(DotDot) + PrintUpper(arg)) + u && (Head(u) == RAngle || Head(u) == Comma)
    ensures Reads(ParseTemplateArg(s, depth), arg, s, u, Fits(1 + Nesting(arg), depth), n)
    decreases Size(arg), 10
  {
    hide Unfuse, Clean, ParseType, ParseTemplateArg, Print;
    var typ, upper := Lower(arg), PrintUpper(arg) + u;
    RangeJoins(arg);
    Reassociate(Print(kw, typ), Sym(DotDot), PrintUpper(arg), u);
    SymHead(DotDot, upper);
    TypeReads(kw, typ, s, Sym(DotDot) + upper, depth, n);
    PrintStarts(kw, typ, Sym(DotDot) + upper);
    Heads(s);
    RangeFinishes(arg, s, u, Fits(1 + Nesting(arg), depth), depth, n);
  }

  lemma RangeFinishes(arg: TypeNode, s: Stream, u: Stream, fits: bool, depth: nat, n: nat)
    requires n <= |u|
    requires HasDots(arg) && Head(s) != IntegerLiteral && (Head(u) == RAngle || Head(u) == Comma)
    requires Reads(ParseType(s, depth), Lower(arg), s, Sym(DotDot) + (PrintUpper(arg) + u), fits, n)
    ensures Reads(ParseTemplateArg(s, depth), arg, s, u, fits, n)
  {
    hide Unfuse, Clean, ParseType, ParseTemplateArg, Nesting, Lower, Upper, HasDots, PrintUpper;
    var r := ParseType(s, depth);
    ArgumentShape(s, depth);
    RangeJoins(arg);
    if r.errors == 0 {
      Take(r.rest, Sym(DotDot)[0], PrintUpper(arg) + u, n);
      UpperReads(arg, Tail(r.rest), u, n);
    }
  }

  /** A type argument, and the bounds of a range behind it. */
  lemma ArgumentShape(s: Stream, depth: nat)
    requires Head(s) != IntegerLiteral
    ensures var r, arg := ParseType(s, depth), ParseTemplateArg(s, depth);
            && arg.errors == r.errors
            && (r.value.nameParts != [] && Head(r.rest) == DotDot ==>
                  (var bounded, more := Second(r.rest) == Identifier, Tail(r.rest);
                   && arg.value == WithRange(r.value, if bounded then HeadText(more) else "")
                   && arg.rest == if bounded then Tail(more) else more))
  {
    hide ParseType;
  }

  lemma UpperReads(arg: TypeNode, s: Stream, u: Stream, n: nat)
    requires n <= |u|
    requires HasDots(arg) && Unfuse(s) == PrintUpper(arg) + u && (Head(u) == RAngle || Head(u) == Comma)
    ensures var bounded := Head(s) == Identifier;
            && Upper(arg) == (if bounded then HeadText(s) else "")
            && Unfuse(if bounded then Tail(s) else s) == u && (Clean(s, n) <==> Clean(if bounded then Tail(s) else s, n))
  {
    if Upper(arg) == "" {
      assert PrintUpper(arg) + u == u;
      Heads(s);
    } else {
      Take(s, Lexeme(Identifier, Upper(arg)), u, n);
    }
  }

  lemma FieldStarts(kw: Keywords, fields: seq<Field>, u: Stream)
    requires FieldsOk(kw, fields) && fields != []
    ensures Head(PrintFields(kw, fields) + u) == Identifier
  {
    assert PrintField(kw, fields[0])[0] == Lexeme(Identifier, fields[0].name);
    assert |PrintFields(kw, fields)| >= |PrintField(kw, fields[0])|;
    assert PrintFields(kw, fields)[0] == PrintField(kw, fields[0])[0];
  }

  /** The one place where fusing hurts: an empty list asks for a plain `>`. */
  lemma EmptyFieldsRead(s: Stream, u: Stream, depth: nat, n: nat)
    requires n <= |u|
    requires Unfuse(s) == Sym(LAngle) + (Sym(RAngle) + u)
    ensures Reads(ParseFields(s, depth), [], s, u, true, n)
  {
    Heads(s);
    assert |Unfuse(s)| > 0 && s != [];
    assert Unfuse(s)[0] == Sym(LAngle)[0] && Unfuse(s)[1..] == Sym(RAngle) + u;
    assert s[0].kind != ShiftRight;
    assert Unfuse(s)[1..] == Unfuse(Tail(s));
    if Second(s) == ShiftRight {
      FieldErrorsGrow(Parsed([], Tail(s), 0), depth);
    } else {
      TakeClose(Tail(s), u, n);
    }
  }

  lemma {:induction false} FieldsRead(kw: Keywords, fields: seq<Field>, s: Stream, u: Stream, depth: nat, n: nat)
    requires n <= |u|
    requires FieldsOk(kw, fields) && depth <= MAX_RECURSION_DEPTH
    requires Unfuse(s) == Sym(LAngle) + (PrintFields(kw, fields) + (Sym(RAngle) + u))
    ensures Reads(ParseFields(s, depth), fields, s, u, Fits(FieldNesting(fields), depth), n)
    decreases FieldsSize(fields), 1
  {
    if fields == [] {
      assert PrintFields(kw, fields) + (Sym(RAngle) + u) == Sym(RAngle) + u;
      EmptyFieldsRead(s, u, depth, n);
    } else {
      var close := Sym(RAngle) + u;
      SymHead(RAngle, u);
      FieldStarts(kw, fields, close);
      Take(s, Sym(LAngle)[0], PrintFields(kw, fields) + close, n);
      Heads(Tail(s));
      FieldListReads(kw, [], fields, Tail(s), close, depth, n);
      assert [] + fields == fields;
      var list := ParseFieldList(Parsed([], Tail(s), 0), depth);
      if list.errors == 0 {
        TakeClose(list.rest, u, n);
      }
    }
  }

  lemma {:induction false} FieldListReads(kw: Keywords, done: seq<Field>, fields: seq<Field>, s: Stream, u: Stream, depth: nat, n: nat)
    requires n <= |u|
    requires FieldsOk(kw, fields) && fields != [] && depth <= MAX_RECURSION_DEPTH
    requires Unfuse(s) == PrintFields(kw, fields) + u && Head(u) == RAngle
    ensures Reads(ParseFieldList(Parsed(done, s, 0), depth), done + fields, s, u, Fits(FieldNesting(fields), depth), n)
    decreases FieldsSize(fields), 0
  {
    var more := if |fields| == 1 then u else Sym(Comma) + (PrintFields(kw, fields[1..]) + u);
    FirstField(kw, fields, u);
    FieldReads(kw, fields[0], s, more, depth, n);
    FieldErrorsGrow(Parsed(done, s, 0), depth);
    var next := AddField(Parsed(done, s, 0), depth);
    if next.errors == 0 {
      if |fields| == 1 {
        Heads(next.rest);
        assert done + fields == done + [fields[0]];
      } else {
        MoreFields(kw, done, fields, next, u, depth, n);
      }
    }
  }

  lemma {:induction false} MoreFields(kw: Keywords, done: seq<Field>, fields: seq<Field>, next: Parsed<seq<Field>>, u: Stream, depth: nat, n: nat)
    requires n <= |u|
    requires FieldsOk(kw, fields) && |fields| > 1 && depth <= MAX_RECURSION_DEPTH && Head(u) == RAngle
    requires next.value == done + [fields[0]] && next.errors == 0
    requires Unfuse(next.rest) == Sym(Comma) + (PrintFields(kw, fields[1..]) + u)
    ensures Head(next.rest) == Comma
    ensures Reads(ParseFieldList(next.(rest := Tail(next.rest)), depth), done + fields, next.rest, u, Fits(FieldNesting(fields[1..]), depth), n)
    decreases FieldsSize(fields[1..]), 2
  {
    Take(next.rest, Sym(Comma)[0], PrintFields(kw, fields[1..]) + u, n);
    FieldListReads(kw, done + [fields[0]], fields[1..], Tail(next.rest), u, depth, n);
    assert done + fields == done + [fields[0]] + fields[1..];
  }

  lemma FirstField(kw: Keywords, fields: seq<Field>, u: Stream)
    requires FieldsOk(kw, fields) && fields != []
    ensures var more := if |fields| == 1 then u else Sym(Comma) + (PrintFields(kw, fields[1..]) + u);
            PrintFields(kw, fields) + u == PrintField(kw, fields[0]) + more && (|fields| > 1 ==> Head(more) == Comma)
  {
    if |fields| > 1 {
      var first, rest := PrintField(kw, fields[0]), PrintFields(kw, fields[1..]);
      Reassociate(first, Sym(Comma), rest, u);
      SymHead(Comma, rest + u);
    }
  }

  lemma {:induction false} FieldReads(kw: Keywords, field: Field, s: Stream, u: Stream, depth: nat, n: nat)
    requires n <= |u|
    requires Printable(kw, field.typ) && depth <= MAX_RECURSION_DEPTH
    requires Unfuse(s) == PrintField(kw, field) + u && (Head(u) == RAngle || Head(u) == Comma)
    ensures Reads(ParseField(s, depth), field, s, u, Fits(1 + Nesting(field.typ), depth), n)
    decreases Size(field.typ), 10
  {
    var typ := Print(kw, field.typ) + u;
    Reassociate([Lexeme(Identifier, field.name)], Sym(Colon), Print(kw, field.typ), u);
    Take(s, Lexeme(Identifier, field.name), Sym(Colon) + typ, n);
    Take(Tail(s), Sym(Colon)[0], typ, n);
    TypeReads(kw, field.typ, Tail(Tail(s)), u, depth, n);
  }

  // ---------- Main results ----------

  /** Fused or not, the printed form of a type parses back to it and is consumed exactly, whatever follows
      that cannot extend it, if and only if its nesting fits the guard and no `<` in it stands directly
      before a `>>`. */
  lemma {:induction false} PrintedTypesParse(kw: Keywords, t: TypeNode, s: Stream, u: Stream, depth: nat)
    requires Printable(kw, t) && depth <= MAX_RECURSION_DEPTH
    requires Unfuse(s) == Print(kw, t) + u && TypeEnds(u)
    ensures var r := ParseType(s, depth);
            && (r.errors == 0 <==> Clean(s, |u|) && Fits(Nesting(t), depth + 1))
            && (r.errors == 0 ==> r.value == t && Unfuse(r.rest) == u)
  {
    TypeReads(kw, t, s, u, depth, |u|);
  }

  /** No `<` and `>` side by side. */
  predicate NoEmptyPair(p: Stream)
    decreases |p|
  {
    p == [] || (!(Head(p) == LAngle && Second(p) == RAngle) && NoEmptyPair(Tail(p)))
  }

  /** Without such a pair a type is clean however it is fused, with what follows as well. */
  lemma {:induction false} UnfusedClean(s: Stream, p: Stream, u: Stream)
    requires Unfuse(s) == p + u && NoEmptyPair(p) && (p == [] || p[|p| - 1].kind != LAngle)
    ensures Clean(s, |u|)
    decreases |s|
  {
    hide Unfuse;
    if p != [] {
      assert |Unfuse(s)| > 0;
      Heads(s);
      UnfuseStep(s);
      if Tail(s) != [] { UnfuseStep(Tail(s)); }
      var width := if s[0].kind == ShiftRight then 2 else 1;
      assert Unfuse(s)[0] == p[0];
      if |p| >= width {
        assert Unfuse(s)[width..] == p[width..] + u;
        if width == 2 { assert p[1..][1..] == p[2..]; }
        UnfusedClean(Tail(s), p[width..], u);
      } else {
        assert |Unfuse(Tail(s))| <= |u|;
      }
    }
  }

  lemma UnfuseStep(s: Stream)
    requires s != []
    ensures var width := if s[0].kind == ShiftRight then 2 else 1;
            && |Unfuse(s)| >= width && Unfuse(s)[width..] == Unfuse(Tail(s))
            && (width == 1 ==> Unfuse(s)[0] == s[0])
            && (width == 2 ==> Unfuse(s)[0] == Sym(RAngle)[0] && Unfuse(s)[1] == Sym(RAngle)[0])
  {
    var front := if s[0].kind == ShiftRight then Sym(RAngle) + Sym(RAngle) else [s[0]];
    assert Unfuse(s) == front + Unfuse(s[1..]) && (front + Unfuse(s[1..]))[|front|..] == Unfuse(s[1..]);
  }

  const OPTIONAL := [Lexeme(KW_stdlib, "optional"), Lexeme(LAngle, "<")]
  const RECORD := [Lexeme(KW_record, "record"), Lexeme(LAngle, "<")]
  const APART := OPTIONAL + (RECORD + (Sym(RAngle) + Sym(RAngle)))
  const FUSED := OPTIONAL + (RECORD + [Lexeme(ShiftRight, ">>")])
  const EMPTY_RECORD := EMPTY.(nameParts := ["record"], stdlib := Some("record"))
  const NESTED_RECORD := EMPTY.(nameParts := ["optional"], stdlib := Some("optional"), args := [EMPTY_RECORD])

  /** The failing family has a member: an empty record whose `>` is fused with the next one. */
  lemma EmptyRecordFusedFails(kw: Keywords)
    requires kw("optional") == KW_stdlib && kw("record") == KW_record
    ensures Unfuse(FUSED) == APART && ParseType(APART, 0).errors == 0 && ParseType(FUSED, 0).errors > 0
  {
    NestedRecordPrints(kw);
    UnfusedExample();
    assert Print(kw, NESTED_RECORD) + [] == APART;
    assert Nesting(EMPTY_RECORD) == 0 && ArgNesting([EMPTY_RECORD][1..]) == 0;
    assert Nesting(NESTED_RECORD) == 1;
    PrintedTypesParse(kw, NESTED_RECORD, APART, [], 0);
    PrintedTypesParse(kw, NESTED_RECORD, FUSED, [], 0);
  }

  lemma NestedRecordPrints(kw: Keywords)
    requires kw("optional") == KW_stdlib && kw("record") == KW_record
    ensures Printable(kw, NESTED_RECORD) && Print(kw, NESTED_RECORD) == APART
  {
    PlainPrint(kw, EMPTY_RECORD);
    assert Print(kw, EMPTY_RECORD) == RECORD + Sym(RAngle);
    assert ArgsOk(kw, [EMPTY_RECORD][1..]);
    assert PrintArgs(kw, [EMPTY_RECORD]) == RECORD + Sym(RAngle);
    assert "optional"[0] == 'o' && "void"[0] == 'v' && "int"[0] == 'i' && "bool"[0] == 'b' && "string"[0] == 's' && "f64"[0] == 'f' && "i64"[0] == 'i';
    PlainPrint(kw, NESTED_RECORD);
    assert Print(kw, NESTED_RECORD) == Word(kw, "optional") + (Sym(LAngle) + ((RECORD + Sym(RAngle)) + Sym(RAngle)));
  }

  lemma UnfusedExample()
    ensures Unfuse(APART) == APART && Unfuse(FUSED) == APART && Clean(APART, 0) && !Clean(FUSED, 0)
  {
    var close, split := [Lexeme(ShiftRight, ">>")], Sym(RAngle) + Sym(RAngle);
    var front := OPTIONAL + RECORD;
    assert APART[4..] == split && FUSED[4..] == close && APART[..4] == front && FUSED[..4] == front;
    UnfuseTail(APART, 4);
    UnfuseTail(FUSED, 4);
    UnfuseTail(split, 2);
    assert Unfuse(split) == split + Unfuse([]);
    assert Unfuse(close) == split + Unfuse([]);
    assert front + split == APART;
    PlainCleans();
  }

  lemma PlainCleans()
    ensures Clean(APART, 0) && !Clean(FUSED, 0)
  {
    assert Clean(APART[6..], 0) && Clean(APART[5..], 0) && Clean(APART[4..], 0) && Clean(APART[3..], 0);
    assert Clean(APART[2..], 0) && Clean(APART[1..], 0);
    assert !Clean(FUSED[3..], 0);
    assert !Clean(FUSED[2..], 0) && !Clean(FUSED[1..], 0);
  }

  lemma PlainPrint(kw: Keywords, t: TypeNode)
    requires Printable(kw, t) && |t.nameParts| == 1 && !t.isConst && t.ownership == NoOwner
    requires t.modifier == NoModifier && !t.isVariadic
    ensures Print(kw, t) == Word(kw, t.nameParts[0]) + PrintBody(kw, t)
  {
    assert PrintParts(kw, t.nameParts[1..]) == [];
    assert PrintModifier(t) + PrintVariadic(t) == [];
  }

  lemma {:induction false} UnfuseTail(s: Stream, n: nat)
    requires n <= |s| && forall i :: 0 <= i < n ==> s[i].kind != ShiftRight
    ensures Unfuse(s) == s[..n] + Unfuse(s[n..])
    decreases n
  {
    if n > 0 {
      UnfuseTail(s[1..], n - 1);
      assert s[..n] == [s[0]] + s[1..][..n - 1] && s[1..][n - 1..] == s[n..];
    } else {
      assert s[0..] == s;
    }
  }
}
