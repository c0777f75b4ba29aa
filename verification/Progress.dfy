/** Progress of the parser, measured. The stall guards of the declaration loops compare places; that never
    leaves a loop where it was, and it tells exactly whether anything was consumed if and only if no two
    places coincide. The parsing steps come with contracts that say how far they get, and what they accept. */
module Progress {
  import opened Tokens
  import opened Diagnostics
  import opened TokenBuffer
  import opened ExprParser
  import opened TypeParser
  import opened Options
  import PipelineParser
  import PipelineResults
  import Lexing

  // ---------- The measure ----------

  /** How much there is to read. A `>>` may be consumed in two halves. */
  function Fuel(s: Stream): nat {
    2 * |s| + if Head(s) == ShiftRight then 1 else 0
  }

  /** A parse that consumed something, or nothing. */
  predicate Shrinks(r: Stream, s: Stream) {
    |r| < |s| || r == s
  }

  /** A parse that consumed something, or reported an error. */
  predicate Tries<T>(r: Parsed<T>, s: Stream) {
    |r.rest| < |s| || (r.rest == s && r.errors > 0)
  }

  lemma ShrinksFuel(r: Stream, s: Stream)
    requires Shrinks(r, s)
    ensures Fuel(r) <= Fuel(s) && (|r| < |s| ==> Fuel(r) < Fuel(s))
  {
  }

  // ---------- Places ----------

  /** Tokens stand at later and later places, with room for the second half of a `>>`. */
  predicate Roomy(ts: seq<Token>, end: Location) {
    ts == [] ||
    (var next := PipelineParser.FirstLoc(ts[1..], end);
     ts[0].loc.Before(next) && (ts[0].kind == ShiftRight ==> SecondHalf(ts[0]).loc.Before(next)) && Roomy(ts[1..], end))
  }

  /** Where the parser stands when that much is left. */
  function PlaceAt(source: seq<Token>, end: Location, fuel: nat): Location {
    if fuel / 2 == 0 || fuel / 2 > |source| then end
    else
      var t := source[|source| - fuel / 2];
      if t.kind == ShiftRight && fuel % 2 == 0 then SecondHalf(t).loc else t.loc
  }

  lemma RestStands(ts: seq<Token>, source: seq<Token>, end: Location)
    requires IsRest(ts, source)
    ensures CanBeLeft(source, Fuel(Lexemes(ts)))
    ensures PipelineParser.FirstLoc(ts, end) == PlaceAt(source, end, Fuel(Lexemes(ts)))
  {
  }

  lemma {:induction false} RoomyFrom(ts: seq<Token>, k: nat, end: Location)
    requires Roomy(ts, end) && k <= |ts|
    ensures Roomy(ts[k..], end)
  {
    if k > 0 {
      RoomyFrom(ts[1..], k - 1, end);
      assert ts[1..][k - 1..] == ts[k..];
    }
  }

  lemma {:induction false} LaterTokens(ts: seq<Token>, j: nat, k: nat, end: Location)
    requires Roomy(ts, end) && j < k <= |ts|
    ensures var next := if k < |ts| then ts[k].loc else end;
            ts[j].loc.Before(next) && (ts[j].kind == ShiftRight ==> SecondHalf(ts[j]).loc.Before(next))
    decreases k
  {
    if j < k - 1 {
      LaterTokens(ts, j, k - 1, end);
    }
    RoomyFrom(ts, k - 1, end);
    assert ts[k - 1..][1..] == ts[k..];
  }

  /** What can be left: everything behind some token, or that token's second half as well. */
  predicate CanBeLeft(source: seq<Token>, fuel: nat) {
    fuel / 2 <= |source| && (fuel % 2 == 1 ==> fuel > 1 && source[|source| - fuel / 2].kind == ShiftRight)
  }

  /** The place of a token or of its second half, or of the end. */
  function Stand(source: seq<Token>, end: Location, i: nat, half: bool): Location
    requires i <= |source|
  {
    if i == |source| then end else if half then SecondHalf(source[i]).loc else source[i].loc
  }

  predicate Stands(source: seq<Token>, i: int, half: bool) {
    0 <= i <= |source| && (half ==> i < |source| && source[i].kind == ShiftRight)
  }

  /** No two tokens stand at the same place, second halves and the end of file counted in. */
  ghost predicate Apart(source: seq<Token>, end: Location) {
    forall i, j, h, k :: Stands(source, i, h) && Stands(source, j, k) && Stand(source, end, i, h) == Stand(source, end, j, k) ==>
      i == j && h == k
  }

  /** Comparing places tells whether anything was consumed, whatever is left, if and only if no two
      places coincide. */
  lemma ComparisonIsExact(source: seq<Token>, end: Location)
    ensures Apart(source, end) <==>
            forall a, b :: IsRest(a, source) && IsRest(b, source) ==>
              (PipelineParser.FirstLoc(a, end) == PipelineParser.FirstLoc(b, end) <==> a == b)
  {
    if Apart(source, end) {
      forall a, b | IsRest(a, source) && IsRest(b, source) && PipelineParser.FirstLoc(a, end) == PipelineParser.FirstLoc(b, end)
        ensures a == b
      {
        RestStands(a, source, end);
        RestStands(b, source, end);
        ApartTells(source, end, Fuel(Lexemes(a)), Fuel(Lexemes(b)));
        SameRest(a, b, source);
      }
    } else {
      var i, j, h, k :| Stands(source, i, h) && Stands(source, j, k) && Stand(source, end, i, h) == Stand(source, end, j, k) &&
                        !(i == j && h == k);
      RestFrom(source, end, i, h);
      RestFrom(source, end, j, k);
      var a, b := From(source, i, h), From(source, j, k);
      assert IsRest(a, source) && IsRest(b, source) && PipelineParser.FirstLoc(a, end) == PipelineParser.FirstLoc(b, end) && |a| != |b| by {
        assert i != j;
      }
    }
  }

  /** What is left when the parser stands there. */
  function From(source: seq<Token>, i: int, half: bool): seq<Token>
    requires Stands(source, i, half)
  {
    if half then [SecondHalf(source[i])] + source[i + 1..] else source[i..]
  }

  lemma RestFrom(source: seq<Token>, end: Location, i: int, half: bool)
    requires Stands(source, i, half)
    ensures IsRest(From(source, i, half), source) && |From(source, i, half)| == |source| - i
    ensures PipelineParser.FirstLoc(From(source, i, half), end) == Stand(source, end, i, half)
    ensures half ==> From(source, i, half)[0].kind == RAngle
    ensures !half && i < |source| ==> From(source, i, half)[0] == source[i]
  {
  }

  lemma ApartTells(source: seq<Token>, end: Location, a: nat, b: nat)
    requires Apart(source, end) && CanBeLeft(source, a) && CanBeLeft(source, b)
    ensures PlaceAt(source, end, a) == PlaceAt(source, end, b) <==> a == b
  {
    hide Apart;
    if PlaceAt(source, end, a) == PlaceAt(source, end, b) {
      StandsAt(source, end, a);
      StandsAt(source, end, b);
      assert |source| - a / 2 == |source| - b / 2 && IsHalf(source, a) == IsHalf(source, b) by {
        SamePlace(source, end, |source| - a / 2, |source| - b / 2, IsHalf(source, a), IsHalf(source, b));
      }
    }
  }

  predicate IsHalf(source: seq<Token>, fuel: nat)
    requires fuel / 2 <= |source|
  {
    fuel / 2 > 0 && source[|source| - fuel / 2].kind == ShiftRight && fuel % 2 == 0
  }

  lemma StandsAt(source: seq<Token>, end: Location, fuel: nat)
    requires CanBeLeft(source, fuel)
    ensures Stands(source, |source| - fuel / 2, IsHalf(source, fuel))
    ensures PlaceAt(source, end, fuel) == Stand(source, end, |source| - fuel / 2, IsHalf(source, fuel))
    ensures fuel % 2 == 0 <==> fuel / 2 == 0 || source[|source| - fuel / 2].kind != ShiftRight || IsHalf(source, fuel)
  {
  }

  lemma SamePlace(source: seq<Token>, end: Location, i: int, j: int, h: bool, k: bool)
    requires Apart(source, end) && Stands(source, i, h) && Stands(source, j, k) && Stand(source, end, i, h) == Stand(source, end, j, k)
    ensures i == j && h == k
  {
  }

  /** Where places move on with the tokens, less to read means a later place. */
  lemma PlacesTellProgress(source: seq<Token>, end: Location, a: nat, b: nat)
    requires Roomy(source, end) && CanBeLeft(source, a) && CanBeLeft(source, b)
    ensures PlaceAt(source, end, b).Before(PlaceAt(source, end, a)) <==> a < b
    ensures PlaceAt(source, end, a) == PlaceAt(source, end, b) <==> a == b
  {
    if a < b {
      LessIsLater(source, end, a, b);
    } else if b < a {
      LessIsLater(source, end, b, a);
    }
  }

  /** Then no two of them coincide. */
  lemma RoomyIsApart(source: seq<Token>, end: Location)
    requires Roomy(source, end)
    ensures Apart(source, end)
  {
    hide Roomy, Stand;
    forall i, j, h, k | Stands(source, i, h) && Stands(source, j, k) && Stand(source, end, i, h) == Stand(source, end, j, k)
      ensures i == j && h == k
    {
      var a, b := FuelAt(source, i, h), FuelAt(source, j, k);
      FuelStands(source, end, i, h);
      FuelStands(source, end, j, k);
      PlacesTellProgress(source, end, a, b);
    }
  }

  function FuelAt(source: seq<Token>, i: int, half: bool): nat
    requires Stands(source, i, half)
  {
    2 * (|source| - i) + if i < |source| && source[i].kind == ShiftRight && !half then 1 else 0
  }

  lemma FuelStands(source: seq<Token>, end: Location, i: int, half: bool)
    requires Stands(source, i, half)
    ensures CanBeLeft(source, FuelAt(source, i, half)) && PlaceAt(source, end, FuelAt(source, i, half)) == Stand(source, end, i, half)
    ensures FuelAt(source, i, half) / 2 == |source| - i
  {
  }

  lemma LessIsLater(source: seq<Token>, end: Location, a: nat, b: nat)
    requires Roomy(source, end) && CanBeLeft(source, a) && CanBeLeft(source, b) && a < b
    ensures PlaceAt(source, end, b).Before(PlaceAt(source, end, a))
  {
    hide Roomy;
    var i, j := |source| - a / 2, |source| - b / 2;
    if j < i {
      LaterTokens(source, j, i, end);
      if i < |source| { LaterTokens(source, i, i + 1, end); }
    }
  }

  /** And equally much means the same tokens. */
  lemma SameRest(a: seq<Token>, b: seq<Token>, source: seq<Token>)
    requires IsRest(a, source) && IsRest(b, source) && Fuel(Lexemes(a)) == Fuel(Lexemes(b))
    ensures a == b
  {
  }

  // ---------- What the parses leave ----------

  lemma ResyncShrinks(s: Stream)
    ensures Shrinks(Resync(s), s)
  {
  }

  lemma NameShrinks(s: Stream)
    ensures Tries(ParseName(s), s)
  {
  }

  lemma QualifiedShrinks(s: Stream)
    ensures Shrinks(ParseQualified(s).rest, s)
  {
  }

  lemma ExpressionShrinks(s: Stream, minPrec: nat, depth: nat)
    ensures Tries(ParseBinary(s, minPrec, depth), s)
  {
    hide ParseUnary;
    UnaryShrinks(s, depth + 1);
  }

  lemma UnaryShrinks(s: Stream, depth: nat)
    ensures Tries(ParseUnary(s, depth), s)
  {
    hide ParseBinary, CallArgs;
    NameShrinks(s);
    assert !IsUnaryOperator(Head(s)) ==> ParseUnary(s, depth) == ParsePrimary(s, depth);
    assert Tries(ParsePrimary(s, depth), s);
  }

  lemma TypeShrinks(s: Stream, depth: nat)
    ensures Tries(ParseType(s, depth), s)
  {
    if depth < MAX_RECURSION_DEPTH {
      var q := ParseQualifiers(s);
      NamedShrinks(q.0, q.1, depth + 1);
    }
  }

  lemma NamedShrinks(t: TypeNode, s: Stream, depth: nat)
    ensures Tries(ParseNamed(t, s, depth), s)
  {
    hide ParseArguments, ParseComposite;
    QualifiedShrinks(s);
  }

  /** A round of the pipeline loop, its guard included. */
  lemma RoundShrinks(ts: seq<Token>, end: Location)
    ensures var r := PipelineParser.RoundAt(ts, end).rest; |r| < |ts| || r == ts
  {
    hide PipelineParser.ParseEdge;
  }

  lemma {:induction false} EdgesShrink(acc: PipelineParser.Got, end: Location, before: nat)
    ensures var r := PipelineParser.EdgesAt(acc, end, before).rest; |r| < |acc.rest| || r == acc.rest
    decreases |acc.rest|, MAX_ERRORS - Capped(before + acc.errors)
  {
    hide PipelineParser.RoundAt;
    RoundShrinks(acc.rest, end);
    if !PipelineParser.EdgesEnd(Lexemes(acc.rest)) && before + acc.errors < MAX_ERRORS {
      EdgesShrink(PipelineParser.AddRound(acc, end), end, before);
    }
  }

  // ---------- What is accepted ----------

  // A rule of the grammar tells what is left behind a piece of the language, or that no such piece stands
  // there.

  function Accepted<T>(r: Parsed<T>): Option<Stream> {
    if r.errors == 0 then Some(r.rest) else None
  }

  function Tok(s: Stream, kind: Kind): (r: Option<Stream>)
    ensures r.Some? && kind != Eof ==> |r.value| < |s|
  {
    if Head(s) == kind then Some(Tail(s)) else None
  }

  function Name(s: Stream): (r: Option<Stream>)
    ensures r.Some? ==> |r.value| < |s|
  {
    NameShrinks(s);
    Accepted(ParseName(s))
  }

  function QualifiedName(s: Stream): (r: Option<Stream>)
    ensures r.Some? ==> |r.value| <= |s|
  {
    QualifiedShrinks(s);
    Accepted(ParseQualified(s))
  }

  function Expression(s: Stream): (r: Option<Stream>)
    ensures r.Some? ==> |r.value| < |s|
  {
    ExpressionShrinks(s, 1, 0);
    Accepted(ParseBinary(s, 1, 0))
  }

  function Type(s: Stream): (r: Option<Stream>)
    ensures r.Some? ==> |r.value| < |s|
  {
    TypeShrinks(s, 0);
    Accepted(ParseType(s, 0))
  }

  /** Pipeline edges up to a closing brace or the end. */
  function Edges(s: Stream): (r: Option<Stream>)
    ensures r.Some? ==> |r.value| <= |s|
    decreases |s|
  {
    if PipelineParser.EdgesEnd(s) then Some(s)
    else
      var rest :- Accepted(PipelineParser.ParseEdge(s));
      Edges(rest)
  }

  lemma {:induction false} LoopAcceptsEdges(acc: Parsed<seq<PipelineParser.Edge>>, before: nat)
    requires before + acc.errors < MAX_ERRORS
    ensures var r := PipelineParser.ParseEdges(acc, before);
            if r.errors == acc.errors then Edges(acc.rest) == Some(r.rest) else Edges(acc.rest) == None
    decreases |acc.rest|
  {
    hide PipelineParser.ParseEdge;
    if !PipelineParser.EdgesEnd(acc.rest) && PipelineParser.ParseEdge(acc.rest).errors == 0 {
      LoopAcceptsEdges(PipelineParser.AddEdge(acc), before);
    }
  }

  // ---------- The parser's progress ----------

  ghost function Left(p: Parser): nat
    reads p`remaining
  {
    Fuel(p.View())
  }

  /** The parser stands where what is left to read says. */
  ghost predicate Ready(p: Parser)
    reads p, p.diag
  {
    && p.Valid() && p.diag.errorCount <= MAX_ERRORS && p.recursionDepth == 0
    && p.current.kind == Head(p.View()) && p.current.text == HeadText(p.View())
    && (p.current.kind == Eof <==> Left(p) == 0) && CanBeLeft(p.source, Left(p))
    && p.current.loc == PlaceAt(p.source, p.end, Left(p))
  }

  /** Not more to read than before, and no error taken back. */
  ghost predicate Onward(p: Parser, fuel: nat, errors: nat)
    reads p, p.diag
  {
    Ready(p) && Left(p) <= fuel && errors <= p.diag.errorCount
  }

  /** Something was consumed, or an error was reported unless the budget was spent. */
  ghost predicate Advanced(p: Parser, fuel: nat, errors: nat)
    reads p, p.diag
  {
    Onward(p, fuel, errors) && (Left(p) < fuel || errors < p.diag.errorCount || p.diag.errorCount == MAX_ERRORS)
  }

  /** No error since there were `errors`, and then the parser stands where the rule ends. */
  ghost predicate Behind(p: Parser, rule: Option<Stream>, errors: nat)
    reads p, p.diag
  {
    Roomy(p.source, p.end) && errors < MAX_ERRORS ==>
      (p.diag.errorCount == errors <==> rule.Some?) && (rule.Some? ==> p.View() == rule.value)
  }

  /** In a loop: `whole` is the rule from where the loop began, `here` the same from here. */
  ghost predicate Goes(p: Parser, here: Option<Stream>, whole: Option<Stream>, errors: nat)
    reads p, p.diag
  {
    Roomy(p.source, p.end) && errors < MAX_ERRORS ==> whole == if p.diag.errorCount == errors then here else None
  }

  datatype Counted = Counted(count: nat, rest: Stream)

  ghost predicate Counts(p: Parser, n: nat, rule: Option<Counted>, errors: nat)
    reads p, p.diag
  {
    Roomy(p.source, p.end) && errors < MAX_ERRORS ==>
      (p.diag.errorCount == errors <==> rule.Some?) && (rule.Some? ==> rule.value == Counted(n, p.View()))
  }

  lemma ValidIsReady(p: Parser)
    requires p.Valid() && p.recursionDepth == 0
    ensures Ready(p)
  {
    hide Parser.Ahead, Parser.Buffered;
    p.CurrentIsHead();
    RestStands(p.remaining, p.source, p.end);
  }

  lemma StartIsFirst(p: Parser)
    requires Ready(p)
    ensures p.current.loc == PipelineParser.FirstLoc(p.remaining, p.end)
  {
    hide Parser.Ahead, Parser.Buffered;
    RestStands(p.remaining, p.source, p.end);
  }

  /** After a parse of the rest. */
  lemma MovedOn(p: Parser, before: Stream)
    requires p.Valid() && p.recursionDepth == 0 && Shrinks(p.View(), before)
    ensures Ready(p) && Left(p) <= Fuel(before)
    ensures |p.View()| < |before| ==> Left(p) < Fuel(before)
  {
    hide Parser.Valid, CanBeLeft, PlaceAt;
    ValidIsReady(p);
    ShrinksFuel(p.View(), before);
  }

  method Take(p: Parser) returns (t: Token)
    requires Ready(p)
    modifies p
    ensures Onward(p, old(Left(p)), old(p.diag.errorCount)) && t == old(p.current)
    ensures t.kind != Eof ==> Left(p) < old(Left(p))
    ensures p.View() == Tail(old(p.View()))
  {
    hide Parser.Valid, CanBeLeft, PlaceAt;
    t := p.Advance();
    MovedOn(p, old(p.View()));
  }

  method Accept(p: Parser, kind: Kind) returns (matched: bool)
    requires Ready(p) && kind != Eof
    modifies p
    ensures Onward(p, old(Left(p)), old(p.diag.errorCount)) && matched == old(p.Check(kind))
    ensures if matched then Left(p) < old(Left(p)) else p.current == old(p.current)
    ensures p.View() == if matched then Tail(old(p.View())) else old(p.View())
  {
    hide Parser.Valid, Left, CanBeLeft, PlaceAt;
    matched := p.Check(kind);
    if matched {
      var _ := Take(p);
    }
  }

  /** The demanded token, or an error and the token that stands there instead. */
  method Demand(p: Parser, kind: Kind, message: string) returns (t: Token)
    requires Ready(p) && kind != Eof
    modifies p, p.diag
    ensures Advanced(p, old(Left(p)), old(p.diag.errorCount)) && t == old(p.current)
    ensures t.kind == kind ==> Left(p) < old(Left(p))
    ensures Behind(p, Tok(old(p.View()), kind), old(p.diag.errorCount))
  {
    hide Parser.Valid, Left, CanBeLeft, PlaceAt;
    t := p.current;
    if p.Check(kind) {
      var _ := Take(p);
    } else {
      p.Error(message);
    }
  }

  /** An error at a place other than the current one. */
  method ErrorAt(p: Parser, loc: Location, message: string)
    requires Ready(p)
    modifies p.diag
    ensures Advanced(p, old(Left(p)), old(p.diag.errorCount)) && Behind(p, None, old(p.diag.errorCount))
  {
    hide Left, CanBeLeft, PlaceAt;
    p.diag.Report(ErrorLevel, loc, message);
  }

  method Warn(p: Parser, message: string)
    requires Ready(p)
    modifies p.diag
    ensures Onward(p, old(Left(p)), old(p.diag.errorCount)) && p.diag.errorCount == old(p.diag.errorCount)
  {
    hide Left, CanBeLeft, PlaceAt;
    p.diag.Report(Warning, p.current.loc, message);
  }

  method Recover(p: Parser)
    requires Ready(p)
    modifies p
    ensures Onward(p, old(Left(p)), old(p.diag.errorCount))
  {
    hide Parser.Valid, CanBeLeft, PlaceAt;
    ResyncShrinks(p.View());
    p.Synchronize();
    MovedOn(p, old(p.View()));
  }

  /** An error, and on to a place where parsing can go on. */
  method Reject(p: Parser, message: string)
    requires Ready(p)
    modifies p, p.diag
    ensures Advanced(p, old(Left(p)), old(p.diag.errorCount))
    ensures Behind(p, None, old(p.diag.errorCount))
  {
    hide Parser.Valid, Parser.View, Left, CanBeLeft, PlaceAt;
    p.Error(message);
    Recover(p);
  }

  /** The same where the token that stands there could be one recovery stops at. */
  method SkipUnexpected(p: Parser, message: string)
    requires Ready(p)
    modifies p, p.diag
    ensures Advanced(p, old(Left(p)), old(p.diag.errorCount))
    ensures Behind(p, None, old(p.diag.errorCount))
  {
    hide Parser.Valid, Parser.View, Left, CanBeLeft, PlaceAt;
    p.Error(message);
    var _ := Take(p);
    Recover(p);
  }

  /** The two-token test of the current and the next token. */
  method Follows(p: Parser, first: Kind, second: Kind) returns (yes: bool)
    requires Ready(p)
    modifies p
    ensures Onward(p, old(Left(p)), old(p.diag.errorCount)) && p.current == old(p.current) && p.View() == old(p.View())
    ensures yes == (Head(p.View()) == first && Second(p.View()) == second)
  {
    hide Parser.Valid, Parser.View, Left, CanBeLeft, PlaceAt;
    yes := false;
    if p.Check(first) {
      var next := p.PeekNext();
      yes := next.kind == second;
    }
  }

  /** The look past a qualified name, behind which the parser stands where it stood. */
  method LooksLikePipeline(p: Parser) returns (yes: bool)
    requires Ready(p)
    modifies p
    ensures Onward(p, old(Left(p)), old(p.diag.errorCount)) && p.View() == old(p.View())
    ensures yes == StartsPipeline(p.View())
  {
    hide Parser.Valid, CanBeLeft, PlaceAt;
    yes := p.DetectPipeline();
    ValidIsReady(p);
  }

  method TakeName(p: Parser)
    requires Ready(p)
    modifies p, p.diag
    ensures Advanced(p, old(Left(p)), old(p.diag.errorCount))
    ensures Behind(p, Name(old(p.View())), old(p.diag.errorCount))
  {
    hide Parser.Valid, CanBeLeft, PlaceAt;
    NameShrinks(p.View());
    var _ := ParseFuncName(p);
    MovedOn(p, old(p.View()));
  }

  method TakeQualifiedName(p: Parser)
    requires Ready(p)
    modifies p, p.diag
    ensures Onward(p, old(Left(p)), old(p.diag.errorCount))
    ensures Behind(p, QualifiedName(old(p.View())), old(p.diag.errorCount))
  {
    hide Parser.Valid, CanBeLeft, PlaceAt;
    QualifiedShrinks(p.View());
    var _ := ParseQualifiedName(p);
    MovedOn(p, old(p.View()));
  }

  method TakeExpression(p: Parser)
    requires Ready(p)
    modifies p, p.diag
    ensures Advanced(p, old(Left(p)), old(p.diag.errorCount))
    ensures Behind(p, Expression(old(p.View())), old(p.diag.errorCount))
  {
    hide Parser.Valid, CanBeLeft, PlaceAt, ParseBinary;
    ExpressionShrinks(p.View(), 1, p.recursionDepth);
    var _ := ParseExpression(p);
    MovedOn(p, old(p.View()));
  }

  method TakeType(p: Parser)
    requires Ready(p)
    modifies p, p.diag
    ensures Advanced(p, old(Left(p)), old(p.diag.errorCount))
    ensures Behind(p, Type(old(p.View())), old(p.diag.errorCount))
  {
    hide Parser.Valid, CanBeLeft, PlaceAt, ParseType;
    TypeShrinks(p.View(), p.recursionDepth);
    var _ := ParseTypeNode(p);
    MovedOn(p, old(p.View()));
  }

  method TakePipelineEdges(p: Parser)
    requires Ready(p)
    modifies p, p.diag
    ensures Onward(p, old(Left(p)), old(p.diag.errorCount))
    ensures Behind(p, Edges(old(p.View())), old(p.diag.errorCount))
  {
    hide Parser.Valid, CanBeLeft, PlaceAt, PipelineParser.EdgesAt, PipelineParser.ParseEdges, PipelineParser.Ordered;
    EdgesShrink(PipelineParser.Got([], p.remaining, 0), p.end, p.diag.errorCount);
    if Roomy(p.source, p.end) && p.diag.errorCount < MAX_ERRORS {
      RestIsOrdered(p);
      LoopAcceptsEdges(Parsed([], p.View(), 0), p.diag.errorCount);
    }
    var _ := PipelineParser.ParsePipelineEdges(p);
    MovedOn(p, old(p.View()));
  }

  lemma RestIsOrdered(p: Parser)
    requires p.Valid() && Roomy(p.source, p.end)
    ensures PipelineParser.Ordered(p.remaining, p.end)
  {
    hide Parser.Ahead, Parser.Buffered, Roomy;
    var ts, n := p.remaining, |p.source| - |p.remaining|;
    RoomyFrom(p.source, n, p.end);
    if ts != [] {
      RoomyFrom(p.source, n + 1, p.end);
      assert ts[1..] == p.source[n + 1..] == p.source[n..][1..];
      LaterTokens(p.source, n, n + 1, p.end);
      RoomyIsOrdered(ts[1..], p.end);
    }
  }

  lemma {:induction false} RoomyIsOrdered(ts: seq<Token>, end: Location)
    requires Roomy(ts, end)
    ensures PipelineParser.Ordered(ts, end)
  {
    if ts != [] { RoomyIsOrdered(ts[1..], end); }
  }

  /** The guard of a loop whose round started at `start`. It fires whenever the round consumed nothing,
      and then the round has reported an error, so that behind it there is less to read in any case. It
      fires only then if no two places coincide. */
  method ForceProgress(p: Parser, start: Location, ghost before: nat, ghost errors: nat) returns (forced: bool)
    requires Advanced(p, before, errors) && before > 0 && errors < MAX_ERRORS
    requires CanBeLeft(p.source, before) && start == PlaceAt(p.source, p.end, before)
    modifies p
    ensures Ready(p) && Left(p) < before && (forced <==> old(p.current).loc == start)
    ensures p.remaining == if forced then Rest(old(p.remaining)) else old(p.remaining)
    ensures old(Left(p)) == before ==> forced && errors < p.diag.errorCount
    ensures Apart(p.source, p.end) ==> (forced <==> old(Left(p)) == before)
    ensures Roomy(p.source, p.end) && p.diag.errorCount == errors ==> p.View() == old(p.View())
  {
    hide Parser.Valid, Parser.View, Roomy, Apart, CanBeLeft, PlaceAt;
    if Roomy(p.source, p.end) { RoomyIsApart(p.source, p.end); }
    if Apart(p.source, p.end) { ApartTells(p.source, p.end, Left(p), before); }
    forced := p.current.loc == start;
    if forced {
      ghost var s := p.View();
      var _ := p.Advance();
      MovedOn(p, s);
    }
  }

  // ---------- The lexer ----------

  /** The lexer's tokens are roomy: a `>>` takes up two columns. */
  lemma {:induction false} TokensAreRoomy(c: Lexing.Config, src: string, pos: nat)
    requires pos <= |src|
    ensures Roomy(Lexing.TokensFrom(c, src, pos), Lexing.LocAt(src, |src|))
    ensures Lexing.TokensFrom(c, src, pos) != [] ==>
            Lexing.TokensFrom(c, src, pos)[0].loc == Lexing.LocAt(src, Lexing.SkipTrivia(src, pos).0)
    decreases |src| - pos
  {
    var start := Lexing.SkipTrivia(src, pos).0;
    if start < |src| {
      var scan := Lexing.ScanToken(c, src, start);
      var ts, more := Lexing.TokensFrom(c, src, pos), Lexing.TokensFrom(c, src, scan.end);
      TokensAreRoomy(c, src, scan.end);
      assert ts[1..] == more;
      var next := if more == [] then |src| else Lexing.SkipTrivia(src, scan.end).0;
      Lexing.LaterIsBehind(src, start, next);
      if scan.kind == ShiftRight {
        TwoColumns(c, src, start);
        Lexing.LaterIsBehind(src, start + 1, next);
      }
    }
  }

  lemma TwoColumns(c: Lexing.Config, src: string, pos: nat)
    requires pos < |src| && Lexing.ScanToken(c, src, pos).kind == ShiftRight
    ensures Lexing.ScanToken(c, src, pos).end == pos + 2
    ensures var l := Lexing.LocAt(src, pos); Lexing.LocAt(src, pos + 1) == Location(l.line, l.column + 1)
  {
  }
}
