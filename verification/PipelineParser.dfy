/** Pipeline edges: a loop that recovers from errors without always consuming a token, so that only
    the error budget bounds it. */
module PipelineParser {
  import opened Tokens
  import opened Diagnostics
  import opened TokenBuffer
  import opened ExprParser

  /** The right end of an edge: the keyword of a terminal type, or a function name in parts. */
  datatype Target = Terminal(text: string) | Callee(name: seq<string>)

  datatype Edge = Edge(source: seq<string>, target: Target)

  // ---------- The grammar on token lists ----------

  /** Further `:: name` pairs; a `::` with no name behind it is left alone. */
  function ParseRef(name: seq<string>, s: Stream): (r: (seq<string>, Stream))
    ensures |r.1| <= |s|
    decreases |s|
  {
    if Head(s) == ColonColon && Second(s) == Identifier then ParseRef(name + [HeadText(Tail(s))], Tail(Tail(s)))
    else (name, s)
  }

  function ParseSource(s: Stream): (r: Parsed<seq<string>>)
    ensures |r.rest| <= |s|
  {
    var first := Expect(s, Identifier);
    var more := ParseRef([HeadText(s)], first.0);
    Parsed(more.0, more.1, first.1)
  }

  /** What stands behind the arrow, or nothing after recovery. */
  function ParseTarget(s: Stream): (r: Parsed<seq<Target>>)
    ensures |r.rest| <= |s| && (|r.rest| < |s| || r.errors > 0)
  {
    if Head(s) == KW_void then Parsed([Terminal(HeadText(s))], Tail(s), 0)
    else if Head(s) == Identifier then
      var more := ParseRef([HeadText(s)], Tail(s));
      Parsed([Callee(more.0)], more.1, 0)
    else Parsed([], Resync(s), 1)
  }

  /** One round of the loop: at most one edge. */
  function ParseEdge(s: Stream): (r: Parsed<seq<Edge>>)
    ensures |r.rest| <= |s| && (|r.rest| < |s| || r.errors > 0)
  {
    if Head(s) == KW_stage then Parsed([], Resync(s), 1)
    else
      var source := ParseSource(s);
      var arrow := Expect(source.rest, Arrow);
      FinishEdge(source.value, ParseTarget(arrow.0), source.errors + arrow.1)
  }

  function FinishEdge(source: seq<string>, target: Parsed<seq<Target>>, errors: nat): (r: Parsed<seq<Edge>>)
    ensures |r.rest| <= |target.rest|
  {
    if target.value == [] then Parsed([], target.rest, errors + target.errors)
    else
      var semi := Expect(target.rest, Semicolon);
      Parsed([Edge(source, target.value[0])], semi.0, errors + target.errors + semi.1)
  }

  function AddEdge(acc: Parsed<seq<Edge>>): (r: Parsed<seq<Edge>>)
    ensures |r.rest| <= |acc.rest| && (|r.rest| < |acc.rest| || r.errors > acc.errors)
  {
    var edge := ParseEdge(acc.rest);
    Parsed(acc.value + edge.value, edge.rest, acc.errors + edge.errors)
  }

  predicate EdgesEnd(s: Stream) { Head(s) == RCurly || Head(s) == Eof }

  /** `before` errors were reported before `acc` was started. Each round consumes a token or spends
      some of the error budget. */
  function ParseEdges(acc: Parsed<seq<Edge>>, before: nat): (r: Parsed<seq<Edge>>)
    ensures EdgesEnd(r.rest) || before + r.errors >= MAX_ERRORS
    ensures |r.rest| <= |acc.rest| && r.errors >= acc.errors && acc.value <= r.value
    decreases |acc.rest|, MAX_ERRORS - Capped(before + acc.errors)
  {
    if EdgesEnd(acc.rest) || before + acc.errors >= MAX_ERRORS then acc else ParseEdges(AddEdge(acc), before)
  }

  // ---------- Locations ----------

  function FirstLoc(ts: seq<Token>, end: Location): Location {
    if ts == [] then end else ts[0].loc
  }

  /** The lexer hands out tokens at strictly later and later places. */
  predicate Ordered(ts: seq<Token>, end: Location) {
    ts == [] || (ts[0].loc.Before(FirstLoc(ts[1..], end)) && Ordered(ts[1..], end))
  }

  /** So a place recognises how much has been consumed. */
  lemma {:induction false} LocationTellsProgress(a: seq<Token>, b: seq<Token>, end: Location)
    requires Ordered(b, end) && Suffix(a, b)
    ensures Ordered(a, end)
    ensures FirstLoc(a, end) == FirstLoc(b, end) <==> a == b
    ensures a != b ==> FirstLoc(b, end).Before(FirstLoc(a, end))
    decreases |b|
  {
    if a != b {
      LocationTellsProgress(a, b[1..], end);
    }
  }

  // ---------- The grammar on tokens, places and all ----------

  lemma {:induction false} SuffixIsLast(a: seq<Token>, b: seq<Token>)
    requires Suffix(a, b)
    ensures |a| <= |b| && a == LastOf(b, |a|)
    decreases |b|
  {
    if a != b {
      SuffixIsLast(a, b[1..]);
    }
  }

  lemma {:induction false} LastIsSuffix(ts: seq<Token>, n: nat)
    requires n <= |ts|
    ensures Suffix(LastOf(ts, n), ts) && Lexemes(LastOf(ts, n)) == LastOf(Lexemes(ts), n)
    decreases |ts|
  {
    if n < |ts| {
      LastIsSuffix(ts[1..], n);
      assert ts[1..][|ts| - 1 - n..] == ts[|ts| - n..];
    }
  }

  function LastOf<T>(ts: seq<T>, n: nat): (r: seq<T>)
    requires n <= |ts|
    ensures |r| == n
  {
    ts[|ts| - n..]
  }

  /** The stall guard of a round that started at `start`. */
  function Guarded(ts: seq<Token>, start: Location, end: Location): (r: seq<Token>)
    ensures |r| <= |ts|
  {
    if FirstLoc(ts, end) == start then Rest(ts) else ts
  }

  /** What the loop has read, and the tokens it leaves. */
  datatype Got = Got(edges: seq<Edge>, rest: seq<Token>, errors: nat)

  function RoundAt(ts: seq<Token>, end: Location): (r: Got)
    ensures |r.rest| <= |ts| && (|r.rest| < |ts| || r.errors > 0)
  {
    var r := ParseEdge(Lexemes(ts));
    var rest := LastOf(ts, |r.rest|);
    Got(r.value, if r.value == [] then rest else Guarded(rest, FirstLoc(ts, end), end), r.errors)
  }

  function AddRound(acc: Got, end: Location): (r: Got)
    ensures |r.rest| <= |acc.rest| && (|r.rest| < |acc.rest| || r.errors > acc.errors)
  {
    var r := RoundAt(acc.rest, end);
    Got(acc.edges + r.edges, r.rest, acc.errors + r.errors)
  }

  function EdgesAt(acc: Got, end: Location, before: nat): (r: Got)
    ensures EdgesEnd(Lexemes(r.rest)) || before + r.errors >= MAX_ERRORS
    ensures |r.rest| <= |acc.rest| && r.errors >= acc.errors && acc.edges <= r.edges
    decreases |acc.rest|, MAX_ERRORS - Capped(before + acc.errors)
  {
    if EdgesEnd(Lexemes(acc.rest)) || before + acc.errors >= MAX_ERRORS then acc
    else EdgesAt(AddRound(acc, end), end, before)
  }

  /** Behind a complete edge the guard never fires where places move on with the tokens: an edge always
      consumed something. */
  lemma GuardIsDead(ts: seq<Token>, end: Location)
    requires Ordered(ts, end)
    ensures var a, b := RoundAt(ts, end), ParseEdge(Lexemes(ts));
            a.edges == b.value && a.rest == LastOf(ts, |b.rest|) && a.errors == b.errors
    ensures Lexemes(RoundAt(ts, end).rest) == ParseEdge(Lexemes(ts)).rest && Ordered(RoundAt(ts, end).rest, end)
  {
    hide ParseEdge, Ordered, Suffix, LastOf, Leaves, FirstLoc;
    var r := ParseEdge(Lexemes(ts));
    EdgeLeavesSuffix(Lexemes(ts));
    LeavesTokens(ts, r.rest);
    LocationTellsProgress(LastOf(ts, |r.rest|), ts, end);
  }

  lemma LeavesTokens(ts: seq<Token>, r: Stream)
    requires Leaves(Lexemes(ts), r)
    ensures |r| <= |ts| && Suffix(LastOf(ts, |r|), ts) && Lexemes(LastOf(ts, |r|)) == r
    ensures |r| < |ts| ==> LastOf(ts, |r|) != ts
  {
    hide Suffix, Lexemes, LastOf;
    LastIsSuffix(ts, |r|);
  }

  /** So the places have no say there. */
  lemma {:induction false} PlacesHaveNoSay(acc: Got, end: Location, before: nat)
    requires Ordered(acc.rest, end)
    ensures Agree(EdgesAt(acc, end, before), ParseEdges(Plain(acc), before))
    decreases |acc.rest|, MAX_ERRORS - Capped(before + acc.errors)
  {
    hide Ordered, AddRound, AddEdge, Lexemes, EdgesEnd;
    if !EdgesEnd(Lexemes(acc.rest)) && before + acc.errors < MAX_ERRORS {
      RoundsAgree(acc, end);
      PlacesHaveNoSay(AddRound(acc, end), end, before);
    }
  }

  lemma RoundsAgree(acc: Got, end: Location)
    requires Ordered(acc.rest, end)
    ensures Plain(AddRound(acc, end)) == AddEdge(Plain(acc)) && Ordered(AddRound(acc, end).rest, end)
  {
    hide Ordered, ParseEdge, RoundAt, Lexemes;
    GuardIsDead(acc.rest, end);
  }

  function Plain(g: Got): Parsed<seq<Edge>> {
    Parsed(g.edges, Lexemes(g.rest), g.errors)
  }

  predicate Agree(a: Got, b: Parsed<seq<Edge>>) { Plain(a) == b }

  /** `r` is what is left of `s`. */
  predicate Leaves(s: Stream, r: Stream) {
    |r| <= |s| && r == LastOf(s, |r|)
  }

  lemma LeavesTrans(s: Stream, r: Stream, q: Stream)
    requires Leaves(s, r) && Leaves(r, q)
    ensures Leaves(s, q)
  {
  }

  lemma {:induction false} RefLeaves(name: seq<string>, s: Stream)
    ensures Leaves(s, ParseRef(name, s).1)
    decreases |s|
  {
    if Head(s) == ColonColon && Second(s) == Identifier {
      RefLeaves(name + [HeadText(Tail(s))], Tail(Tail(s)));
    }
  }

  lemma {:induction false} ResyncLeaves(s: Stream)
    ensures Leaves(s, Resync(s))
    decreases |s|
  {
    hide IsRestart, Leaves;
    if s != [] {
      TailLeaves(s, Resync(Tail(s)));
      if Head(s) != RCurly && !IsRestart(Head(s)) && Head(s) != Semicolon {
        ResyncLeaves(Tail(s));
      }
    } else {
      NothingLeaves();
    }
  }

  lemma NothingLeaves()
    ensures Leaves([], [])
  {
  }

  lemma TailLeaves(s: Stream, r: Stream)
    requires s != []
    ensures Leaves(s, s) && Leaves(s, Tail(s)) && (Leaves(Tail(s), r) ==> Leaves(s, r))
  {
  }

  lemma SourceLeaves(s: Stream)
    ensures Leaves(s, ParseSource(s).rest) && ParseSource(s).value != []
  {
    RefLeaves([HeadText(s)], Expect(s, Identifier).0);
    RefKeeps([HeadText(s)], Expect(s, Identifier).0);
  }

  lemma {:induction false} RefKeeps(name: seq<string>, s: Stream)
    requires name != []
    ensures ParseRef(name, s).0 != []
    decreases |s|
  {
    if Head(s) == ColonColon && Second(s) == Identifier {
      RefKeeps(name + [HeadText(Tail(s))], Tail(Tail(s)));
    }
  }

  lemma TargetLeaves(s: Stream)
    ensures Leaves(s, ParseTarget(s).rest)
  {
    hide Leaves, Resync, ParseRef;
    RefLeaves([HeadText(s)], Tail(s));
    ResyncLeaves(s);
    if s != [] {
      TailLeaves(s, ParseRef([HeadText(s)], Tail(s)).1);
    }
  }

  /** An edge is read off the front, and a complete one took something. */
  lemma EdgeLeavesSuffix(s: Stream)
    ensures Leaves(s, ParseEdge(s).rest) && (ParseEdge(s).value != [] ==> |ParseEdge(s).rest| < |s|)
  {
    hide ParseSource, ParseTarget, Leaves, Resync;
    ResyncLeaves(s);
    SourceLeaves(s);
    var arrow := Expect(ParseSource(s).rest, Arrow).0;
    ExpectLeaves(ParseSource(s).rest, Arrow);
    LeavesTrans(s, ParseSource(s).rest, arrow);
    TargetLeaves(arrow);
    TargetTakes(arrow);
    LeavesTrans(s, arrow, ParseTarget(arrow).rest);
    ExpectLeaves(ParseTarget(arrow).rest, Semicolon);
    LeavesTrans(s, ParseTarget(arrow).rest, Expect(ParseTarget(arrow).rest, Semicolon).0);
  }

  lemma ExpectLeaves(s: Stream, kind: Kind)
    ensures Leaves(s, Expect(s, kind).0)
  {
  }

  lemma TargetTakes(s: Stream)
    ensures ParseTarget(s).value != [] ==> |ParseTarget(s).rest| < |s|
  {
  }

  // ---------- The parser ----------

  method ParseRefParts(p: Parser, first: string) returns (name: seq<string>)
    requires p.Valid()
    modifies p
    ensures p.Valid() && p.recursionDepth == old(p.recursionDepth) && Suffix(p.remaining, old(p.remaining))
    ensures (name, p.View()) == ParseRef([first], old(p.View()))
  {
    hide Parser.Valid, Parser.View;
    name := [first];
    ghost var depth := p.recursionDepth;
    var more := p.LooksAt(ColonColon, Identifier);
    while more
      invariant p.Valid() && p.recursionDepth == depth && Suffix(p.remaining, old(p.remaining))
      invariant more == (Head(p.View()) == ColonColon && Second(p.View()) == Identifier)
      invariant ParseRef(name, p.View()) == ParseRef([first], old(p.View()))
      decreases |p.View()|
    {
      label before:
      var part := TakePair(p);
      SuffixTrans(p.remaining, old@before(p.remaining), old(p.remaining));
      name := name + [part];
      more := p.LooksAt(ColonColon, Identifier);
    }
  }

  method TakePair(p: Parser) returns (text: string)
    requires p.Valid()
    modifies p
    ensures p.Valid() && p.recursionDepth == old(p.recursionDepth) && Suffix(p.remaining, old(p.remaining))
    ensures text == HeadText(Tail(old(p.View()))) && p.View() == Tail(Tail(old(p.View())))
  {
    hide Parser.Valid, Parser.View;
    RestIsSuffix(p.remaining, p.remaining);
    var _ := p.Advance();
    RestIsSuffix(p.remaining, old(p.remaining));
    p.CurrentIsHead();
    var part := p.Advance();
    text := part.text;
  }

  method ParseEdgeSource(p: Parser) returns (source: seq<string>)
    requires p.Valid()
    modifies p, p.diag
    ensures Did(p, source, ParseSource(old(p.View())), old(p.diag.errorCount), old(p.recursionDepth))
    ensures Suffix(p.remaining, old(p.remaining))
  {
    hide Parser.Valid, Parser.View;
    p.CurrentIsHead();
    var first := p.Expect(Identifier, "expected function name in pipeline edge");
    label named:
    source := ParseRefParts(p, first.text);
    SuffixTrans(p.remaining, old@named(p.remaining), old(p.remaining));
  }

  /** The right end of an edge; without one the parser recovers and there is no edge. */
  method ParseEdgeTarget(p: Parser) returns (target: seq<Target>)
    requires p.Valid()
    modifies p, p.diag
    ensures Did(p, target, ParseTarget(old(p.View())), old(p.diag.errorCount), old(p.recursionDepth))
    ensures Suffix(p.remaining, old(p.remaining))
  {
    hide Parser.Valid, Parser.View;
    p.CurrentIsHead();
    RestIsSuffix(p.remaining, p.remaining);
    if p.Check(KW_void) {
      target := [Terminal(p.current.text)];
      var _ := p.Advance();
    } else if p.Check(Identifier) {
      var first := p.Advance();
      label named:
      var name := ParseRefParts(p, first.text);
      SuffixTrans(p.remaining, old@named(p.remaining), old(p.remaining));
      target := [Callee(name)];
    } else {
      p.Error("expected function name or type after '->' in pipeline edge");
      p.Synchronize();
      target := [];
    }
  }

  /** The stall guard: consumes a token if the parser still stands at `start`. */
  method ForceProgress(p: Parser, start: Location)
    requires p.Valid()
    modifies p
    ensures p.Valid() && p.recursionDepth == old(p.recursionDepth)
    ensures old(p.current).loc != start ==> p.remaining == old(p.remaining)
    ensures old(p.current).loc == start ==> p.remaining == Rest(old(p.remaining))
  {
    hide Parser.Valid, Parser.View;
    if p.current.loc == start {
      var _ := p.Advance();
    }
  }

  /** The parser stands where the loop on tokens stopped. */
  ghost predicate DidAt(p: Parser, edges: seq<Edge>, g: Got, errorsBefore: nat, depth: nat)
    reads p, p.diag
  {
    && p.Valid() && p.recursionDepth == depth
    && edges == g.edges && p.remaining == g.rest && p.diag.errorCount == Capped(errorsBefore + g.errors)
  }

  /** The end of a complete edge, and the guard behind it. */
  method FinishRound(p: Parser, source: seq<string>, target: Target, start: Location) returns (edge: Edge)
    requires p.Valid()
    modifies p, p.diag
    ensures var r := FinishEdge(source, Parsed([target], Lexemes(old(p.remaining)), 0), 0);
            DidAt(p, [edge], Got(r.value, Guarded(LastOf(old(p.remaining), |r.rest|), start, p.end), r.errors),
                  old(p.diag.errorCount), old(p.recursionDepth))
  {
    hide Parser.Valid;
    p.CurrentIsHead();
    var _ := p.Expect(Semicolon, "expected ';' after pipeline edge");
    edge := Edge(source, target);
    SuffixIsLast(p.remaining, old(p.remaining));
    p.CurrentIsHead();
    assert p.current.loc == FirstLoc(p.remaining, p.end);
    ForceProgress(p, start);
  }

  method ParseEdgeBody(p: Parser) returns (edge: seq<Edge>)
    requires p.Valid() && Head(p.View()) != KW_stage
    modifies p, p.diag
    ensures DidAt(p, edge, RoundAt(old(p.remaining), p.end), old(p.diag.errorCount), old(p.recursionDepth))
  {
    hide Parser.Valid, ParseSource, ParseTarget;
    ghost var whole := p.remaining;
    p.CurrentIsHead();
    var start := p.current.loc;
    var source := ParseHalfEdge(p);
    label arrowed:
    var target := ParseEdgeTarget(p);
    SuffixTrans(p.remaining, old@arrowed(p.remaining), whole);
    SuffixIsLast(p.remaining, whole);
    edge := [];
    if target != [] {
      ghost var behind := p.remaining;
      var e := FinishRound(p, source, target[0], start);
      edge := [e];
      LastOfLast(whole, |behind|, |FinishEdge(source, Parsed(target, Lexemes(behind), 0), 0).rest|);
    }
  }

  lemma LastOfLast(ts: seq<Token>, n: nat, m: nat)
    requires m <= n <= |ts|
    ensures LastOf(LastOf(ts, n), m) == LastOf(ts, m)
  {
  }

  method ParseHalfEdge(p: Parser) returns (source: seq<string>)
    requires p.Valid()
    modifies p, p.diag
    ensures var r := ParseSource(old(p.View())); var arrow := Expect(r.rest, Arrow);
            Did(p, source, Parsed(r.value, arrow.0, r.errors + arrow.1), old(p.diag.errorCount), old(p.recursionDepth))
    ensures Suffix(p.remaining, old(p.remaining))
  {
    hide Parser.Valid, Parser.View;
    source := ParseEdgeSource(p);
    label named:
    var _ := p.Expect(Arrow, "expected '->' in pipeline edge");
    SuffixTrans(p.remaining, old@named(p.remaining), old(p.remaining));
  }

  lemma StageRound(ts: seq<Token>, end: Location)
    requires Head(Lexemes(ts)) == KW_stage
    ensures RoundAt(ts, end) == Got([], LastOf(ts, |Resync(Lexemes(ts))|), 1)
  {
  }

  method ParseRound(p: Parser, edges: seq<Edge>, ghost acc: Got, ghost before: nat) returns (more: seq<Edge>)
    requires DidAt(p, edges, acc, before, p.recursionDepth)
    modifies p, p.diag
    ensures DidAt(p, more, AddRound(acc, p.end), before, old(p.recursionDepth))
  {
    hide Parser.Valid, RoundAt, LastOf, Lexemes, Suffix;
    p.CurrentIsHead();
    if p.Check(KW_stage) {
      StageRound(p.remaining, p.end);
      p.Error("explicit stage<N> is incompatible with pipeline mode");
      p.Synchronize();
      SuffixIsLast(p.remaining, old(p.remaining));
      more := edges;
      assert edges == edges + [];
    } else {
      var edge := ParseEdgeBody(p);
      more := edges + edge;
    }
  }

  /** The loop's measure is the pair of what is left to read and what is left of the error budget;
      the first alone does not decrease. */
  method ParsePipelineEdges(p: Parser) returns (edges: seq<Edge>)
    requires p.Valid()
    modifies p, p.diag
    ensures DidAt(p, edges, EdgesAt(Got([], old(p.remaining), 0), p.end, old(p.diag.errorCount)),
                  old(p.diag.errorCount), old(p.recursionDepth))
    ensures Ordered(old(p.remaining), p.end) ==>
            Did(p, edges, ParseEdges(Parsed([], old(p.View()), 0), old(p.diag.errorCount)), old(p.diag.errorCount), old(p.recursionDepth))
  {
    hide Parser.Valid, Ordered;
    edges := [];
    ghost var acc := Got([], p.remaining, 0);
    ghost var before, depth := p.diag.errorCount, p.recursionDepth;
    if Ordered(p.remaining, p.end) { PlacesHaveNoSay(acc, p.end, before); }
    p.CurrentIsHead();
    while !p.Check(RCurly) && !p.Check(Eof) && !p.diag.ReachedLimit()
      invariant DidAt(p, edges, acc, before, depth)
      invariant p.current.kind == Head(Lexemes(acc.rest))
      invariant EdgesAt(acc, p.end, before) == EdgesAt(Got([], old(p.remaining), 0), p.end, before)
      decreases |acc.rest|, MAX_ERRORS - p.diag.errorCount
    {
      edges := ParseRound(p, edges, acc, before);
      acc := AddRound(acc, p.end);
      p.CurrentIsHead();
    }
  }
}
