/** Token streams rewritten for the formatter. */
module Rewriting {
  // The structural rewrites of the formatter's lenient mode, which puts the rewritten tokens in place of
  // the source: `stage(3)` and its spellings become `stage<3>`, `@public` becomes `public:`, `@owned`
  // becomes `owned`. The new tokens share the place of the first old one.

  import opened Tokens
  import opened Diagnostics
  import opened TokenBuffer
  import opened Progress
  import opened LeafDeclarations
  import Declarations
  import PipelineParser
  import Lexing
  import LexerResults

  // ---------- Patterns ----------

  predicate KindAt(ts: seq<Token>, i: nat, kind: Kind) {
    i < |ts| && ts[i].kind == kind
  }

  /** `(N)` behind a place. */
  predicate Numbered(ts: seq<Token>, i: nat) {
    KindAt(ts, i, LParen) && KindAt(ts, i + 1, IntegerLiteral) && KindAt(ts, i + 2, RParen)
  }

  /** How many tokens a stage annotation in front takes up: `#[stage(N)]`, `@stage(N)`, `stage(N)`. */
  function StageLength(ts: seq<Token>): (n: nat)
    ensures n <= |ts|
  {
    if KindAt(ts, 0, Hash) && KindAt(ts, 1, LBracket) && KindAt(ts, 2, KW_stage) && Numbered(ts, 3) && KindAt(ts, 6, RBracket) then 7
    else if KindAt(ts, 0, At) && KindAt(ts, 1, KW_stage) && Numbered(ts, 2) then 5
    else if KindAt(ts, 0, KW_stage) && Numbered(ts, 1) then 4
    else 0
  }

  predicate AtVisibility(ts: seq<Token>) {
    KindAt(ts, 0, At) && (KindAt(ts, 1, KW_public) || KindAt(ts, 1, KW_private) || KindAt(ts, 1, KW_protected))
  }

  predicate AtOwned(ts: seq<Token>) {
    KindAt(ts, 0, At) && KindAt(ts, 1, KW_owned)
  }

  // ---------- The passes ----------

  /** The four tokens a stage annotation becomes. Only the plain form keeps the number's own place. */
  function StageGroup(ts: seq<Token>): (g: seq<Token>)
    requires StageLength(ts) > 0
    ensures |g| == 4
  {
    var n, loc := StageLength(ts), ts[0].loc;
    var number := if n == 7 then ts[4] else if n == 5 then ts[3] else ts[2];
    [Token(KW_stage, "stage", loc), Token(LAngle, "<", loc),
     Token(IntegerLiteral, number.text, if n == 4 then number.loc else loc), Token(RAngle, ">", loc)]
  }

  function Stages(ts: seq<Token>): seq<Token> {
    var n := StageLength(ts);
    if ts == [] then [] else if n > 0 then StageGroup(ts) + Stages(ts[n..]) else [ts[0]] + Stages(ts[1..])
  }

  function VisibilityGroup(ts: seq<Token>): (g: seq<Token>)
    requires AtVisibility(ts)
    ensures |g| == 2
  {
    [Token(ts[1].kind, ts[1].text, ts[0].loc), Token(Colon, ":", ts[0].loc)]
  }

  function Visibilities(ts: seq<Token>): seq<Token> {
    if ts == [] then [] else if AtVisibility(ts) then VisibilityGroup(ts) + Visibilities(ts[2..])
    else [ts[0]] + Visibilities(ts[1..])
  }

  function Owners(ts: seq<Token>): seq<Token> {
    if ts == [] then [] else if AtOwned(ts) then [Token(KW_owned, "owned", ts[0].loc)] + Owners(ts[2..])
    else [ts[0]] + Owners(ts[1..])
  }

  const CANONICAL := map[KW_type := "type", KW_constraint := "constraint", KW_adapt := "adapt", KW_namespace := "namespace",
                         KW_public := "public", KW_owned := "owned", KW_fn := "fn", KW_external := "external"]

  function Named(t: Token): Token {
    if t.kind in CANONICAL then t.(text := CANONICAL[t.kind]) else t
  }

  function Names(ts: seq<Token>): (r: seq<Token>)
    ensures |r| == |ts|
  {
    seq(|ts|, i requires 0 <= i < |ts| => Named(ts[i]))
  }

  function Rewritten(ts: seq<Token>): seq<Token> {
    Names(Owners(Visibilities(Stages(ts))))
  }

  // ---------- The rewriter ----------

  class TokenStreamRewriter {
    var tokens: seq<Token>
    const lenient: bool

    /** Drains the lexer, up to its end of file, which stays behind the tokens. */
    constructor (lexer: Lexing.Lexer)
      requires lexer.Valid() && lexer.buffer == []
      modifies lexer, lexer.diag
      ensures lexer.Valid() && lexer.buffer == []
      ensures tokens == Lexing.TokensFrom(lexer.config, lexer.source, old(lexer.pos)) + [Token(Eof, "", Lexing.LocAt(lexer.source, |lexer.source|))]
      ensures lenient == lexer.config.lenient
    {
      hide Lexing.TokensFrom, Lexing.ErrorsAt, Lexing.LocAt;
      lenient := lexer.config.lenient;
      new;
      var drained := [];
      ghost var all := Lexing.TokensFrom(lexer.config, lexer.source, lexer.pos);
      var t := lexer.NextToken();
      while t.kind != Eof
        invariant lexer.Valid() && lexer.buffer == []
        invariant all == drained + if t.kind == Eof then [] else [t] + Lexing.TokensFrom(lexer.config, lexer.source, lexer.pos)
        invariant t.kind == Eof ==> t == Token(Eof, "", Lexing.LocAt(lexer.source, |lexer.source|))
        decreases |all| - |drained|
      {
        Drained(drained, t, Lexing.TokensFrom(lexer.config, lexer.source, lexer.pos));
        drained := drained + [t];
        t := lexer.NextToken();
      }
      tokens := drained + [t];
    }

    method ReplaceRange(from: nat, to: nat, replacement: seq<Token>)
      requires from <= to <= |tokens|
      modifies this
      ensures tokens == old(tokens)[..from] + replacement + old(tokens)[to..]
    {
      tokens := tokens[..from] + replacement + tokens[to..];
    }

    method RewriteStageParens()
      modifies this
      ensures tokens == Stages(old(tokens))
    {
      hide Stages, StageLength, StageGroup;
      var i := 0;
      while i < |tokens|
        invariant i <= |tokens| && Stages(old(tokens)) == tokens[..i] + Stages(tokens[i..])
        decreases |tokens| - i
      {
        StagesStep(tokens[i..]);
        ghost var was := tokens;
        var n := StageLength(tokens[i..]);
        if n > 0 {
          ReplaceRange(i, i + n, StageGroup(tokens[i..]));
          Spliced(was, i, n, StageGroup(was[i..]), Stages(was[i + n..]));
          i := i + 4;
        } else {
          Moved(was, i, Stages(was[i + 1..]));
          i := i + 1;
        }
      }
      NoStages();
      assert tokens[i..] == [] && tokens[..i] + [] == tokens;
    }

    method RewriteAtVisibility()
      modifies this
      ensures tokens == Visibilities(old(tokens))
    {
      hide Visibilities, AtVisibility, VisibilityGroup;
      var i := 0;
      while i < |tokens|
        invariant i <= |tokens| && Visibilities(old(tokens)) == tokens[..i] + Visibilities(tokens[i..])
        decreases |tokens| - i
      {
        VisibilitiesStep(tokens[i..]);
        ghost var was := tokens;
        if AtVisibility(tokens[i..]) {
          ReplaceRange(i, i + 2, VisibilityGroup(tokens[i..]));
          Spliced(was, i, 2, VisibilityGroup(was[i..]), Visibilities(was[i + 2..]));
          i := i + 2;
        } else {
          Moved(was, i, Visibilities(was[i + 1..]));
          i := i + 1;
        }
      }
      NoVisibilities();
      assert tokens[i..] == [] && tokens[..i] + [] == tokens;
    }

    method RewriteAtModifier()
      modifies this
      ensures tokens == Owners(old(tokens))
    {
      hide Owners, AtOwned;
      var i := 0;
      while i < |tokens|
        invariant i <= |tokens| && Owners(old(tokens)) == tokens[..i] + Owners(tokens[i..])
        decreases |tokens| - i
      {
        OwnersStep(tokens[i..]);
        ghost var was := tokens;
        if AtOwned(tokens[i..]) {
          var owned := [Token(KW_owned, "owned", tokens[i].loc)];
          ReplaceRange(i, i + 2, owned);
          Spliced(was, i, 2, owned, Owners(was[i + 2..]));
          i := i + 1;
        } else {
          Moved(was, i, Owners(was[i + 1..]));
          i := i + 1;
        }
      }
      NoOwners();
      assert tokens[i..] == [] && tokens[..i] + [] == tokens;
    }

    method RewriteKeywordAliasText()
      modifies this
      ensures tokens == Names(old(tokens))
    {
      for i := 0 to |tokens|
        invariant |tokens| == |old(tokens)|
        invariant forall k :: 0 <= k < |tokens| ==> tokens[k] == if k < i then Named(old(tokens)[k]) else old(tokens)[k]
      {
        tokens := tokens[i := Named(tokens[i])];
      }
    }

    method Rewrite() returns (r: seq<Token>)
      modifies this
      ensures r == if lenient then Rewritten(old(tokens)) else old(tokens)
    {
      if lenient {
        RewriteStageParens();
        RewriteAtVisibility();
        RewriteAtModifier();
        RewriteKeywordAliasText();
      }
      r := tokens;
    }
  }

  lemma Drained(done: seq<Token>, t: Token, more: seq<Token>)
    ensures done + ([t] + more) == (done + [t]) + more
  {
  }

  lemma StagesStep(ts: seq<Token>)
    requires ts != []
    ensures var n := StageLength(ts);
            Stages(ts) == if n > 0 then StageGroup(ts) + Stages(ts[n..]) else [ts[0]] + Stages(ts[1..])
  {
  }

  lemma NoStages()
    ensures Stages([]) == []
  {
  }

  lemma VisibilitiesStep(ts: seq<Token>)
    requires ts != []
    ensures Visibilities(ts) == if AtVisibility(ts) then VisibilityGroup(ts) + Visibilities(ts[2..]) else [ts[0]] + Visibilities(ts[1..])
    ensures AtVisibility(ts) ==> |ts| >= 2
  {
  }

  lemma NoVisibilities()
    ensures Visibilities([]) == []
  {
  }

  lemma OwnersStep(ts: seq<Token>)
    requires ts != []
    ensures Owners(ts) == if AtOwned(ts) then [Token(KW_owned, "owned", ts[0].loc)] + Owners(ts[2..]) else [ts[0]] + Owners(ts[1..])
    ensures AtOwned(ts) ==> |ts| >= 2
  {
  }

  lemma NoOwners()
    ensures Owners([]) == []
  {
  }

  /** Replacing `n` tokens at `i` by a group, and going on behind the group. */
  lemma Spliced(was: seq<Token>, i: nat, n: nat, group: seq<Token>, rest: seq<Token>)
    requires i + n <= |was|
    ensures var now := was[..i] + group + was[i + n..];
            && was[i..][n..] == was[i + n..] && now[i + |group|..] == was[i + n..]
            && was[..i] + (group + rest) == now[..i + |group|] + rest
  {
    var now := was[..i] + group + was[i + n..];
    assert now[..i + |group|] == was[..i] + group;
  }

  lemma Moved(was: seq<Token>, i: nat, rest: seq<Token>)
    requires i < |was|
    ensures was[i..][0] == was[i] && was[i..][1..] == was[i + 1..]
    ensures was[..i] + ([was[i]] + rest) == was[..i + 1] + rest
  {
    assert was[..i + 1] == was[..i] + [was[i]];
  }

  // ---------- The end of file stays behind ----------

  lemma StageLengthBefore(ts: seq<Token>, eof: Token)
    requires ts != [] && eof.kind == Eof
    ensures StageLength(ts + [eof]) == StageLength(ts)
    ensures StageLength(ts) > 0 ==> StageGroup(ts + [eof]) == StageGroup(ts)
    ensures AtVisibility(ts + [eof]) == AtVisibility(ts) && AtOwned(ts + [eof]) == AtOwned(ts)
  {
    forall i: nat, kind: Kind | kind != Eof ensures KindAt(ts + [eof], i, kind) == KindAt(ts, i, kind) {}
  }

  lemma {:induction false} StagesBefore(ts: seq<Token>, eof: Token)
    requires eof.kind == Eof
    ensures Stages(ts + [eof]) == Stages(ts) + [eof]
    decreases |ts|
  {
    hide StageLength, StageGroup;
    var all := ts + [eof];
    if ts == [] {
      NoStages();
      Alone(eof);
      StagesStep([eof]);
      assert all == [eof] && [eof][1..] == [];
    } else {
      StageLengthBefore(ts, eof);
      StagesStep(ts);
      StagesStep(all);
      var n := StageLength(ts);
      var k := if n > 0 then n else 1;
      assert all[k..] == ts[k..] + [eof];
      StagesBefore(ts[k..], eof);
    }
  }

  lemma Alone(eof: Token)
    requires eof.kind == Eof
    ensures StageLength([eof]) == 0 && !AtVisibility([eof]) && !AtOwned([eof])
  {
  }

  lemma {:induction false} VisibilitiesBefore(ts: seq<Token>, eof: Token)
    requires eof.kind == Eof
    ensures Visibilities(ts + [eof]) == Visibilities(ts) + [eof]
    decreases |ts|
  {
    var all := ts + [eof];
    if ts == [] {
      assert all == [eof] && [eof][1..] == [];
    } else {
      StageLengthBefore(ts, eof);
      var k := if AtVisibility(ts) then 2 else 1;
      assert all[k..] == ts[k..] + [eof];
      VisibilitiesBefore(ts[k..], eof);
    }
  }

  lemma {:induction false} OwnersBefore(ts: seq<Token>, eof: Token)
    requires eof.kind == Eof
    ensures Owners(ts + [eof]) == Owners(ts) + [eof]
    decreases |ts|
  {
    var all := ts + [eof];
    if ts == [] {
      assert all == [eof] && [eof][1..] == [];
    } else {
      StageLengthBefore(ts, eof);
      var k := if AtOwned(ts) then 2 else 1;
      assert all[k..] == ts[k..] + [eof];
      OwnersBefore(ts[k..], eof);
    }
  }

  lemma RewrittenBefore(ts: seq<Token>, eof: Token)
    requires eof.kind == Eof
    ensures Rewritten(ts + [eof]) == Rewritten(ts) + [eof]
  {
    StagesBefore(ts, eof);
    VisibilitiesBefore(Stages(ts), eof);
    OwnersBefore(Visibilities(Stages(ts)), eof);
  }

  // ---------- Which streams have places that coincide ----------

  predicate HasStage(ts: seq<Token>) {
    ts != [] && (StageLength(ts) > 0 || HasStage(ts[1..]))
  }

  predicate HasVisibility(ts: seq<Token>) {
    ts != [] && (AtVisibility(ts) || HasVisibility(ts[1..]))
  }

  lemma {:induction false} NoStageNoChange(ts: seq<Token>)
    requires !HasStage(ts)
    ensures Stages(ts) == ts
    decreases |ts|
  {
    hide StageLength;
    if ts != [] { NoStageNoChange(ts[1..]); }
  }

  lemma {:induction false} NoVisibilityNoChange(ts: seq<Token>)
    requires !HasVisibility(ts)
    ensures Visibilities(ts) == ts
    decreases |ts|
  {
    if ts != [] { NoVisibilityNoChange(ts[1..]); }
  }

  /** `@owned` leaves places moving on. */
  lemma {:induction false} OwnersAreRoomy(ts: seq<Token>, end: Location)
    requires Roomy(ts, end)
    ensures Roomy(Owners(ts), end) && (ts != [] ==> PipelineParser.FirstLoc(Owners(ts), end) == ts[0].loc)
    ensures Owners(ts) == [] <==> ts == []
    decreases |ts|
  {
    if ts != [] {
      var k := if AtOwned(ts) then 2 else 1;
      if k == 2 { assert ts[1..][1..] == ts[2..]; }
      OwnersAreRoomy(ts[k..], end);
      assert Owners(ts)[1..] == Owners(ts[k..]);
    }
  }

  lemma {:induction false} NamesAreRoomy(ts: seq<Token>, end: Location)
    requires Roomy(ts, end)
    ensures Roomy(Names(ts), end) && PipelineParser.FirstLoc(Names(ts), end) == PipelineParser.FirstLoc(ts, end)
    decreases |ts|
  {
    if ts != [] {
      NamesAreRoomy(ts[1..], end);
      assert Names(ts)[1..] == Names(ts[1..]);
    }
  }

  /** Two kinds that a group puts side by side at one place. */
  predicate Twins(a: Token, b: Token) {
    a.loc == b.loc &&
    ((a.kind == KW_stage && b.kind == LAngle) ||
     ((a.kind == KW_public || a.kind == KW_private || a.kind == KW_protected) && b.kind == Colon))
  }

  predicate HasTwins(ts: seq<Token>) {
    |ts| >= 2 && (Twins(ts[0], ts[1]) || HasTwins(ts[1..]))
  }

  predicate StageTwins(ts: seq<Token>) {
    |ts| >= 2 && ((Twins(ts[0], ts[1]) && ts[0].kind == KW_stage) || StageTwins(ts[1..]))
  }

  lemma {:induction false} StageTwinsAreTwins(ts: seq<Token>)
    requires StageTwins(ts)
    ensures HasTwins(ts)
    decreases |ts|
  {
    if StageTwins(ts[1..]) { StageTwinsAreTwins(ts[1..]); }
  }

  lemma {:induction false} TwinsBehind(a: seq<Token>, b: seq<Token>)
    ensures StageTwins(b) ==> StageTwins(a + b)
    ensures HasTwins(b) ==> HasTwins(a + b)
    ensures HasVisibility(b) ==> HasVisibility(a + b)
    decreases |a|
  {
    if a == [] {
      assert a + b == b;
    } else {
      TwinsBehind(a[1..], b);
      assert (a + b)[1..] == a[1..] + b;
      if StageTwins(b) || HasTwins(b) { assert |a + b| >= 2; }
    }
  }

  lemma TwinsInFront(a: seq<Token>, b: seq<Token>)
    requires |a| >= 2 && Twins(a[0], a[1])
    ensures HasTwins(a + b) && (a[0].kind == KW_stage ==> StageTwins(a + b))
  {
    assert (a + b)[0] == a[0] && (a + b)[1] == a[1];
  }

  lemma {:induction false} StagesMakeTwins(ts: seq<Token>)
    requires HasStage(ts)
    ensures StageTwins(Stages(ts))
    decreases |ts|
  {
    hide StageLength;
    if StageLength(ts) > 0 {
      TwinsInFront(StageGroup(ts), Stages(ts[StageLength(ts)..]));
    } else {
      StagesMakeTwins(ts[1..]);
      TwinsBehind([ts[0]], Stages(ts[1..]));
    }
  }

  lemma {:induction false} VisibilitiesMakeTwins(ts: seq<Token>)
    requires HasVisibility(ts)
    ensures HasTwins(Visibilities(ts))
    decreases |ts|
  {
    if AtVisibility(ts) {
      TwinsInFront(VisibilityGroup(ts), Visibilities(ts[2..]));
    } else {
      VisibilitiesMakeTwins(ts[1..]);
      TwinsBehind([ts[0]], Visibilities(ts[1..]));
    }
  }

  /** A stage group is left alone by the passes behind it. */
  lemma {:induction false} VisibilitiesKeepTwins(ts: seq<Token>)
    requires StageTwins(ts)
    ensures StageTwins(Visibilities(ts))
    decreases |ts|
  {
    if AtVisibility(ts) {
      assert ts[1..][1..] == ts[2..];
      VisibilitiesKeepTwins(ts[2..]);
      TwinsBehind(VisibilityGroup(ts), Visibilities(ts[2..]));
    } else if Twins(ts[0], ts[1]) && ts[0].kind == KW_stage {
      KeepsSecond(ts);
      TwinsInFront([ts[0], ts[1]], Visibilities(ts[2..]));
    } else {
      VisibilitiesKeepTwins(ts[1..]);
      TwinsBehind([ts[0]], Visibilities(ts[1..]));
    }
  }

  lemma {:induction false} KeepsSecond(ts: seq<Token>)
    requires |ts| >= 2 && ts[0].kind != At && ts[1].kind != At
    ensures Visibilities(ts) == [ts[0], ts[1]] + Visibilities(ts[2..])
    ensures Owners(ts) == [ts[0], ts[1]] + Owners(ts[2..])
  {
    hide Visibilities, Owners;
    assert ts[1..][1..] == ts[2..];
    VisibilitiesStep(ts);
    VisibilitiesStep(ts[1..]);
    OwnersStep(ts);
    OwnersStep(ts[1..]);
    PairUp(ts[0], ts[1], Visibilities(ts[2..]));
    PairUp(ts[0], ts[1], Owners(ts[2..]));
  }

  lemma PairUp(a: Token, b: Token, rest: seq<Token>)
    ensures [a] + ([b] + rest) == [a, b] + rest
  {
  }

  lemma {:induction false} OwnersKeepTwins(ts: seq<Token>)
    requires HasTwins(ts)
    ensures HasTwins(Owners(ts))
    decreases |ts|
  {
    if AtOwned(ts) {
      assert ts[1..][1..] == ts[2..];
      OwnersKeepTwins(ts[2..]);
      TwinsBehind([Token(KW_owned, "owned", ts[0].loc)], Owners(ts[2..]));
    } else if Twins(ts[0], ts[1]) {
      KeepsSecond(ts);
      TwinsInFront([ts[0], ts[1]], Owners(ts[2..]));
    } else {
      OwnersKeepTwins(ts[1..]);
      TwinsBehind([ts[0]], Owners(ts[1..]));
    }
  }

  lemma {:induction false} NamesKeepTwins(ts: seq<Token>)
    requires HasTwins(ts)
    ensures HasTwins(Names(ts))
    decreases |ts|
  {
    assert Names(ts)[1..] == Names(ts[1..]);
    if !Twins(ts[0], ts[1]) { NamesKeepTwins(ts[1..]); }
  }

  /** Neither does a stage group hide a visibility. */
  lemma {:induction false} StagesKeepVisibility(ts: seq<Token>)
    requires HasVisibility(ts)
    ensures HasVisibility(Stages(ts))
    decreases |ts|
  {
    var n := StageLength(ts);
    if n > 0 {
      NoneInside(ts, 0);
      StagesKeepVisibility(ts[n..]);
      TwinsBehind(StageGroup(ts), Stages(ts[n..]));
    } else if AtVisibility(ts) {
      assert StageLength(ts[1..]) == 0;
      assert Stages(ts) == [ts[0]] + ([ts[1]] + Stages(ts[1..][1..]));
    } else {
      StagesKeepVisibility(ts[1..]);
      TwinsBehind([ts[0]], Stages(ts[1..]));
    }
  }

  lemma {:induction false} NoneInside(ts: seq<Token>, k: nat)
    requires StageLength(ts) > 0 && k <= StageLength(ts) && HasVisibility(ts[k..])
    ensures HasVisibility(ts[StageLength(ts)..])
    decreases StageLength(ts) - k
  {
    if k < StageLength(ts) {
      assert ts[k..][1..] == ts[k + 1..] && ts[k..][0] == ts[k];
      assert !AtVisibility(ts[k..]) by {
        if k + 1 < |ts| { assert ts[k..][1] == ts[k + 1]; }
      }
      NoneInside(ts, k + 1);
    }
  }

  lemma {:induction false} TwinsCoincide(ts: seq<Token>, end: Location)
    requires HasTwins(ts)
    ensures exists i: nat :: i + 1 < |ts| && ts[i].loc == ts[i + 1].loc && ts[i].kind != ShiftRight
    decreases |ts|
  {
    if Twins(ts[0], ts[1]) {
      assert 0 + 1 < |ts| && ts[0].loc == ts[0 + 1].loc;
    } else {
      TwinsCoincide(ts[1..], end);
      var i: nat :| i + 1 < |ts[1..]| && ts[1..][i].loc == ts[1..][i + 1].loc && ts[1..][i].kind != ShiftRight;
      assert ts[i + 1].loc == ts[i + 1 + 1].loc;
    }
  }

  // ---------- Main results ----------

  /** Tokens that move on with their places do so after rewriting, and comparing places is exact, if and
      only if there was no stage annotation to rewrite and no visibility behind an `@`. */
  lemma RewrittenIsApart(ts: seq<Token>, end: Location)
    requires Roomy(ts, end)
    ensures Apart(Rewritten(ts), end) <==> !HasStage(ts) && !HasVisibility(ts)
    ensures Roomy(Rewritten(ts), end) <==> !HasStage(ts) && !HasVisibility(ts)
  {
    hide HasStage, HasVisibility, Stages, Visibilities, Owners, Names, Roomy, Apart, HasTwins, StageTwins;
    if !HasStage(ts) && !HasVisibility(ts) {
      NoStageNoChange(ts);
      NoVisibilityNoChange(ts);
      OwnersAreRoomy(ts, end);
      NamesAreRoomy(Owners(ts), end);
    } else {
      if HasStage(ts) {
        StagesMakeTwins(ts);
        VisibilitiesKeepTwins(Stages(ts));
        StageTwinsAreTwins(Visibilities(Stages(ts)));
      } else {
        StagesKeepVisibility(ts);
        VisibilitiesMakeTwins(Stages(ts));
      }
      OwnersKeepTwins(Visibilities(Stages(ts)));
      NamesKeepTwins(Owners(Visibilities(Stages(ts))));
      TwinsAreNotApart(Rewritten(ts), end);
    }
    if Roomy(Rewritten(ts), end) { RoomyIsApart(Rewritten(ts), end); }
  }

  lemma TwinsAreNotApart(ts: seq<Token>, end: Location)
    requires HasTwins(ts)
    ensures !Apart(ts, end)
  {
    hide HasTwins;
    TwinsCoincide(ts, end);
    var i: nat :| i + 1 < |ts| && ts[i].loc == ts[i + 1].loc && ts[i].kind != ShiftRight;
    assert Stands(ts, i, false) && Stands(ts, i + 1, false);
    assert Stand(ts, end, i, false) == Stand(ts, end, i + 1, false);
  }

  /** In a debug body the round at a stage annotation then skips a token more than it should: the `<`. */
  lemma AngleIsSwallowed(ts: seq<Token>, end: Location)
    requires StageLength(ts) > 0
    ensures var out := Stages(ts);
            out[0].kind != Identifier && out[1].kind == LAngle && BehindJunk(out, end) == out[2..]
  {
    var out := Stages(ts);
    assert out[0] == StageGroup(ts)[0] && out[1] == StageGroup(ts)[1];
    assert Rest(Rest(out)) == out[2..];
  }

  /** The other way round, a token that stands at a place of its own is skipped alone. */
  lemma JunkAlone(ts: seq<Token>, end: Location)
    requires Apart(ts, end) && ts != []
    ensures BehindJunk(ts, end) == Rest(ts)
  {
    assert Stands(ts, 0, false) && Stands(ts, 1, false);
    assert Stand(ts, end, 0, false) != Stand(ts, end, 1, false);
  }

  /** `debug T { @stage(3) }` as the formatter reads it: the tokens of the body, and what the first
      round leaves of them. */
  lemma StageInDebugBody()
    ensures var at := (n: nat) => Location(1, n);
            var body := [Token(At, "@", at(11)), Token(KW_stage, "stage", at(12)), Token(LParen, "(", at(17)),
                         Token(IntegerLiteral, "3", at(18)), Token(RParen, ")", at(19)), Token(RCurly, "}", at(21))];
            && Roomy(body, at(22)) && !Apart(Rewritten(body), at(22))
            && Stages(body) == [Token(KW_stage, "stage", at(11)), Token(LAngle, "<", at(11)), Token(IntegerLiteral, "3", at(11)),
                                Token(RAngle, ">", at(11)), Token(RCurly, "}", at(21))]
            && BehindJunk(Stages(body), at(22)) == Stages(body)[2..]
  {
    var at := (n: nat) => Location(1, n);
    var body := [Token(At, "@", at(11)), Token(KW_stage, "stage", at(12)), Token(LParen, "(", at(17)),
                 Token(IntegerLiteral, "3", at(18)), Token(RParen, ")", at(19)), Token(RCurly, "}", at(21))];
    var end := at(22);
    assert StageLength(body) == 5;
    assert Roomy(body[5..], end) && Roomy(body[4..], end) && Roomy(body[3..], end) && Roomy(body[2..], end) && Roomy(body[1..], end) by {
      assert body[5..][1..] == [] && body[4..][1..] == body[5..] && body[3..][1..] == body[4..];
      assert body[2..][1..] == body[3..] && body[1..][1..] == body[2..];
    }
    assert HasStage(body);
    RewrittenIsApart(body, end);
    AngleIsSwallowed(body, end);
    assert body[5..][1..] == [] && StageLength(body[5..]) == 0;
    assert Stages(body[5..]) == [body[5]] + Stages([]);
  }

  // ---------- The formatter's front end ----------

  lemma {:induction false} StagesHaveNoEof(ts: seq<Token>)
    requires NoEof(ts)
    ensures NoEof(Stages(ts))
    decreases |ts|
  {
    hide StageLength;
    if ts != [] {
      var k := if StageLength(ts) > 0 then StageLength(ts) else 1;
      StagesHaveNoEof(ts[k..]);
    }
  }

  lemma {:induction false} VisibilitiesHaveNoEof(ts: seq<Token>)
    requires NoEof(ts)
    ensures NoEof(Visibilities(ts))
    decreases |ts|
  {
    if ts != [] { VisibilitiesHaveNoEof(ts[if AtVisibility(ts) then 2 else 1..]); }
  }

  lemma {:induction false} OwnersHaveNoEof(ts: seq<Token>)
    requires NoEof(ts)
    ensures NoEof(Owners(ts))
    decreases |ts|
  {
    if ts != [] { OwnersHaveNoEof(ts[if AtOwned(ts) then 2 else 1..]); }
  }

  /** Lexing, rewriting and parsing what was rewritten ends on every source text. The parser's stall
      guards are exact if and only if no stage annotation and no `@` visibility was rewritten. */
  method ParseRewritten(c: Lexing.Config, src: string) returns (p: Parser)
    ensures var ts := Lexing.TokensFrom(c, src, 0);
            && p.Valid() && p.source == (if c.lenient then Rewritten(ts) else ts) && p.end == Lexing.LocAt(src, |src|)
            && (p.View() == [] || p.diag.errorCount == MAX_ERRORS)
            && (Apart(p.source, p.end) <==> !c.lenient || (!HasStage(ts) && !HasVisibility(ts)))
  {
    hide Parser.Valid, Parser.View, Rewritten, Roomy, Apart, HasStage, HasVisibility, CanBeLeft, PlaceAt;
    var diag := new DiagnosticEngine();
    var lexer := new Lexing.Lexer(src, c, diag);
    ghost var ts, end := Lexing.TokensFrom(c, src, 0), Lexing.LocAt(src, |src|);
    var rewriter := new TokenStreamRewriter(lexer);
    var tokens := rewriter.Rewrite();
    LexerResults.TokensAreOrdered(c, src, 0);
    TokensAreRoomy(c, src, 0);
    RewrittenBefore(ts, Token(Eof, "", end));
    RewrittenIsApart(ts, end);
    RoomyIsApart(ts, end);
    RewrittenHasNoEof(ts);
    var n := |tokens| - 1;
    p := new Parser(tokens[..n], tokens[n].loc, diag);
    ValidIsReady(p);
    var _, _ := Declarations.ParseTopoFile(p);
  }

  lemma RewrittenHasNoEof(ts: seq<Token>)
    requires NoEof(ts)
    ensures NoEof(Rewritten(ts))
  {
    StagesHaveNoEof(ts);
    VisibilitiesHaveNoEof(Stages(ts));
    OwnersHaveNoEof(Visibilities(Stages(ts)));
  }
}
