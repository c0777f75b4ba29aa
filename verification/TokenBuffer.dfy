/** The parser's token management: the current token, one token of lookahead, a push-back stack and the
    lexer behind them, kept as one list of remaining tokens. */
module TokenBuffer {
  import opened Tokens
  import opened Diagnostics

  /** A push-back stack holds the next token at its end. */
  function Reversed(ts: seq<Token>): (r: seq<Token>) {
    seq(|ts|, i requires 0 <= i < |ts| => ts[|ts| - 1 - i])
  }

  lemma ReversedSnoc(ts: seq<Token>, t: Token)
    ensures Reversed(ts + [t]) == [t] + Reversed(ts)
  {
  }

  lemma EmptyReversed()
    ensures Reversed([]) == []
  {
  }

  lemma PopReversed(ts: seq<Token>, unread: seq<Token>)
    requires ts != []
    ensures var all, n := Reversed(ts) + unread, |ts| - 1;
            all != [] && all[0] == ts[n] && all[1..] == Reversed(ts[..n]) + unread
  {
    assert ts == ts[..|ts| - 1] + [ts[|ts| - 1]];
    ReversedSnoc(ts[..|ts| - 1], ts[|ts| - 1]);
    ConsReassociates(ts[|ts| - 1], Reversed(ts[..|ts| - 1]), unread);
  }

  lemma PutBackOne(ts: seq<Token>, k: nat, rest: seq<Token>)
    requires k < |ts|
    ensures ts[..k + 1] + rest == ts[..k] + ([ts[k]] + rest)
  {
  }

  lemma ConsReassociates(t: Token, a: seq<Token>, b: seq<Token>)
    ensures [t] + (a + b) == ([t] + a) + b
  {
  }

  lemma Regroup(a: seq<Token>, t: Token, b: seq<Token>)
    ensures a + ([t] + b) == (a + [t]) + b
  {
  }

  function Copies(n: nat, t: Token): seq<Token> {
    seq(n, i => t)
  }

  function Rest(ts: seq<Token>): seq<Token> {
    if ts == [] then [] else ts[1..]
  }

  lemma LexemesOfRest(ts: seq<Token>)
    ensures Lexemes(Rest(ts)) == Tail(Lexemes(ts))
  {
  }

  /** Dropping the first buffered token drops the first remaining one, or one reading of the end. */
  lemma DropFirst(t: Token, ahead: seq<Token>, remaining: seq<Token>, ends: nat, eof: Token)
    requires [t] + ahead == remaining + Copies(ends, eof)
    ensures remaining != [] ==> ahead == remaining[1..] + Copies(ends, eof)
    ensures remaining == [] ==> ends > 0 && t == eof && ahead == Copies(ends - 1, eof)
  {
    assert ([t] + ahead)[1..] == ahead;
    if remaining == [] {
      assert ([t] + ahead)[0] == Copies(ends, eof)[0];
      assert Copies(ends, eof)[1..] == Copies(ends - 1, eof);
    } else {
      assert (remaining + Copies(ends, eof))[1..] == remaining[1..] + Copies(ends, eof);
    }
  }

  lemma FirstBuffered(tokens: seq<Token>, eof: Token)
    ensures if tokens == [] then [eof] + [] == tokens + Copies(1, eof)
            else [tokens[0]] + tokens[1..] == tokens + Copies(0, eof)
  {
  }

  /** Reading the end of file once more, right behind a last token, adds one reading of it. */
  lemma OneMoreEnd(t: Token, remaining: seq<Token>, ends: nat, eof: Token)
    requires ends > 0 && [t] + [] == remaining + Copies(ends - 1, eof)
    ensures [t] + [eof] == remaining + Copies(ends, eof)
  {
    assert Copies(ends, eof) == Copies(ends - 1, eof) + [eof];
    assert (remaining + Copies(ends - 1, eof)) + [eof] == remaining + (Copies(ends - 1, eof) + [eof]);
  }

  lemma SecondToken(remaining: seq<Token>, ends: nat, eof: Token)
    requires |remaining| + ends >= 2 && NoEof(remaining) && eof.kind == Eof
    ensures var t := (remaining + Copies(ends, eof))[1];
            t.kind == Second(Lexemes(remaining)) && (t.kind != Eof ==> t.text == HeadText(Tail(Lexemes(remaining))))
  {
    var all := remaining + Copies(ends, eof);
    if |remaining| >= 2 {
      assert all[1] == remaining[1];
      assert Tail(Lexemes(remaining))[0] == remaining[1].Bare();
    } else {
      assert all[1] == eof;
    }
  }

  /** `a` is what is left of `b` after some tokens were consumed. */
  predicate Suffix(a: seq<Token>, b: seq<Token>) {
    a == b || (b != [] && Suffix(a, b[1..]))
  }

  lemma {:induction false} SuffixTrans(a: seq<Token>, b: seq<Token>, c: seq<Token>)
    requires Suffix(a, b) && Suffix(b, c)
    ensures Suffix(a, c)
  {
    if b != c {
      SuffixTrans(a, b, c[1..]);
    }
  }

  lemma RestIsSuffix(ts: seq<Token>, of: seq<Token>)
    requires Suffix(ts, of)
    ensures Suffix(Rest(ts), of)
  {
    assert Suffix(Rest(ts), ts) by {
      if ts != [] { assert Suffix(ts[1..], ts[1..]); }
    }
    SuffixTrans(Rest(ts), ts, of);
  }

  /** What can be left of `source`: its last tokens, the first of them perhaps the second half of a `>>`. */
  predicate IsRest(ts: seq<Token>, source: seq<Token>) {
    |ts| <= |source| &&
    (var n := |source| - |ts|;
     ts == source[n..] || (ts != [] && source[n].kind == ShiftRight && ts == [SecondHalf(source[n])] + source[n + 1..]))
  }

  lemma SourceIsRest(source: seq<Token>)
    ensures IsRest(source, source)
  {
  }

  lemma RestOfRest(ts: seq<Token>, k: nat, source: seq<Token>)
    requires IsRest(ts, source) && k <= |ts|
    ensures IsRest(ts[k..], source)
  {
    var n := |source| - |ts|;
    if ts == source[n..] {
      assert ts[k..] == source[n + k..];
    } else if k > 0 {
      assert ts[k..] == source[n + k..];
    }
  }

  lemma SplitIsRest(ts: seq<Token>, source: seq<Token>)
    requires IsRest(ts, source) && ts != [] && ts[0].kind == ShiftRight
    ensures IsRest([SecondHalf(ts[0])] + ts[1..], source)
  {
    var n := |source| - |ts|;
    assert ts[1..] == source[n + 1..];
  }

  const MAX_RECURSION_DEPTH := 256

  class Parser {
    const diag: DiagnosticEngine
    const end: Location
    ghost const source: seq<Token>      // all the tokens there were
    var current: Token
    var lookahead: Token
    var hasLookahead: bool
    var pending: seq<Token>       // back = next to consume
    var unread: seq<Token>        // what the lexer has still to deliver
    var recursionDepth: nat
    ghost var remaining: seq<Token>
    ghost var ends: nat           // how often the end of file has already been read

    function EndToken(): Token { Token(Eof, "", end) }

    /** Everything behind the current token, in the order it will be consumed. */
    ghost function Ahead(): seq<Token>
      reads this`lookahead, this`hasLookahead, this`pending, this`unread
    {
      if hasLookahead then [lookahead] + (Reversed(pending) + unread) else Reversed(pending) + unread
    }

    ghost function Buffered(): seq<Token>
      reads this`current, this`lookahead, this`hasLookahead, this`pending, this`unread
    {
      [current] + Ahead()
    }

    /** `remaining` is the one list that the current token, the lookahead, the push-back stack and
        the lexer hold together, the rest of `source`. */
    ghost predicate Valid()
      reads this`current, this`lookahead, this`hasLookahead, this`pending, this`unread, this`remaining, this`ends, diag
    {
      && diag.Valid() && NoEof(remaining) && Buffered() == remaining + Copies(ends, EndToken())
      && IsRest(remaining, source)
    }

    /** The abstract list of remaining tokens the grammar is defined on. */
    ghost function View(): Stream
      reads this`remaining
    {
      Lexemes(remaining)
    }

    lemma CurrentIsHead()
      requires Valid()
      ensures current.kind == Head(View()) && current.text == HeadText(View())
      ensures current.kind != Eof ==> remaining != [] && remaining[0] == current
      ensures current.kind == Eof <==> View() == []
      ensures current == if remaining == [] then EndToken() else remaining[0]
      ensures diag.errorCount <= MAX_ERRORS
    {
      assert Buffered()[0] == current;
    }

    constructor (tokens: seq<Token>, end: Location, diag: DiagnosticEngine)
      requires NoEof(tokens) && diag.Valid()
      ensures Valid() && remaining == source == tokens && this.end == end && recursionDepth == 0 && this.diag == diag
    {
      this.end, this.diag, source, remaining := end, diag, tokens, tokens;
      current, lookahead := if tokens == [] then Token(Eof, "", end) else tokens[0], Token(Eof, "", end);
      hasLookahead, pending, recursionDepth := false, [], 0;
      unread := if tokens == [] then [] else tokens[1..];
      ends := if tokens == [] then 1 else 0;
      hide NoEof, IsRest, Reversed, Copies;
      new;
      SourceIsRest(tokens);
      EmptyReversed();
      FirstBuffered(tokens, EndToken());
      assert Ahead() == unread;
      assert diag.Valid();
    }

    /** The token behind the current one and any lookahead: a pushed-back one first, then the
        lexer's. */
    method Pull() returns (t: Token)
      requires !hasLookahead
      modifies this`pending, this`unread
      ensures t == if old(Ahead()) == [] then EndToken() else old(Ahead())[0]
      ensures Ahead() == Rest(old(Ahead()))
    {
      hide Reversed;
      EmptyReversed();
      if pending != [] {
        PopReversed(pending, unread);
        t := pending[|pending| - 1];
        pending := pending[..|pending| - 1];
      } else if unread != [] {
        t := unread[0];
        unread := unread[1..];
      } else {
        t := EndToken();
      }
    }

    /** The next token of lookahead: reading it changes nothing. */
    method PeekNext() returns (t: Token)
      requires Valid()
      modifies this`lookahead, this`hasLookahead, this`pending, this`unread, this`ends
      ensures Valid() && t.kind == Second(View()) && (t.kind != Eof ==> t.text == HeadText(Tail(View())))
    {
      hide Reversed;
      if !hasLookahead {
        ghost var ahead, behind := Ahead(), Copies(ends, EndToken());
        lookahead := Pull();
        hasLookahead := true;
        if ahead == [] {
          ends := ends + 1;
          OneMoreEnd(current, remaining, ends, EndToken());
        }
        assert Ahead() == if ahead == [] then [EndToken()] else ahead;
      }
      t := lookahead;
      assert Buffered()[1] == t;
      SecondToken(remaining, ends, EndToken());
    }

    /** Consumes the head of the list; at the end of file it stays there. */
    method Advance() returns (prev: Token)
      requires Valid()
      modifies this`current, this`hasLookahead, this`pending, this`unread, this`remaining, this`ends
      ensures Valid() && prev == old(current) && !hasLookahead
      ensures remaining == Rest(old(remaining)) && View() == Tail(old(View()))
    {
      hide Reversed, IsRest, Lexemes;
      prev := current;
      ghost var ahead := Ahead();
      LexemesOfRest(remaining);
      DropFirst(current, ahead, remaining, ends, EndToken());
      RestOfRest(remaining, |remaining| - |Rest(remaining)|, source);
      if hasLookahead {
        current := lookahead;
        hasLookahead := false;
      } else {
        current := Pull();
      }
      ends := if ahead == [] then 1 else if remaining == [] then ends - 1 else ends;
      remaining := Rest(remaining);
      assert Buffered() == if ahead == [] then [EndToken()] else ahead;
    }

    predicate Check(kind: Kind)
      reads this`current
    {
      current.kind == kind
    }

    /** The two-token test `check(first) && peekNext().is(second)`. */
    method LooksAt(first: Kind, second: Kind) returns (yes: bool)
      requires Valid()
      modifies this`lookahead, this`hasLookahead, this`pending, this`unread, this`ends
      ensures Valid() && yes == (Head(View()) == first && Second(View()) == second)
    {
      CurrentIsHead();
      yes := false;
      if Check(first) {
        var next := PeekNext();
        yes := next.kind == second;
      }
    }

    method Error(message: string)
      requires Valid()
      modifies diag
      ensures Valid() && diag.errorCount == Capped(old(diag.errorCount) + 1)
    {
      diag.Report(ErrorLevel, current.loc, message);
    }

    method Match(kind: Kind) returns (matched: bool)
      requires Valid() && kind != Eof
      modifies this`current, this`hasLookahead, this`pending, this`unread, this`remaining, this`ends
      ensures Valid() && matched == (old(Head(View())) == kind)
      ensures View() == if matched then Tail(old(View())) else old(View())
    {
      CurrentIsHead();
      matched := Check(kind);
      if matched {
        var _ := Advance();
      }
    }

    /** The demanded token, or an error and the token that stands there instead, unconsumed. */
    method Expect(kind: Kind, message: string) returns (t: Token)
      requires Valid() && kind != Eof
      modifies this`current, this`hasLookahead, this`pending, this`unread, this`remaining, this`ends, diag
      ensures Valid() && t == old(current)
      ensures View() == Tokens.Expect(old(View()), kind).0 && Suffix(remaining, old(remaining))
      ensures diag.errorCount == Capped(old(diag.errorCount) + Tokens.Expect(old(View()), kind).1)
    {
      CurrentIsHead();
      RestIsSuffix(remaining, remaining);
      t := current;
      if Check(kind) {
        var _ := Advance();
      } else {
        Error(message);
      }
    }

    /** Splits a current `>>`: its first half is consumed, its second half becomes current. */
    method SplitShift()
      requires Valid() && Check(ShiftRight)
      modifies this`current, this`remaining
      ensures Valid() && View() == [Lexeme(RAngle, ">")] + Tail(old(View()))
      ensures old(remaining) != [] && remaining == [SecondHalf(old(current))] + old(remaining)[1..]
    {
      hide Reversed, Copies, Lexemes, IsRest;
      CurrentIsHead();
      SplitIsRest(remaining, source);
      ghost var ahead := Ahead();
      DropFirst(current, ahead, remaining, ends, EndToken());
      ViewOfTail();
      current := SecondHalf(current);
      ConsReassociates(current, remaining[1..], Copies(ends, EndToken()));
      LexemesCons(current, remaining[1..]);
      remaining := [current] + remaining[1..];
    }

    lemma ViewOfTail()
      requires remaining != []
      ensures Tail(View()) == Lexemes(remaining[1..])
    {
      assert remaining == [remaining[0]] + remaining[1..];
      LexemesCons(remaining[0], remaining[1..]);
    }

    /** Skips to a place where parsing can go on. The program then forces progress when the position
        has not moved, unless at the end of file; its loop only ends at the end of file, so that
        never happens. */
    method Synchronize()
      requires Valid()
      modifies this`current, this`hasLookahead, this`pending, this`unread, this`remaining, this`ends
      ensures Valid() && View() == Resync(old(View())) && Suffix(remaining, old(remaining))
    {
      CurrentIsHead();
      while !Check(Eof)
        invariant Valid() && Resync(View()) == Resync(old(View())) && Suffix(remaining, old(remaining))
        invariant current.kind == Head(View()) && (current.kind == Eof ==> View() == [])
        decreases |View()|
      {
        RestIsSuffix(remaining, old(remaining));
        if Check(Semicolon) {
          var _ := Advance();
          return;
        }
        if Check(RCurly) || IsRestart(current.kind) {
          return;
        }
        var _ := Advance();
        CurrentIsHead();
      }
    }

    /** Pushes a consumed token back in front of the current one. */
    method PushBack(t: Token)
      requires Valid() && !hasLookahead && t.kind != Eof && IsRest([t] + remaining, source)
      modifies this`current, this`pending, this`remaining
      ensures Valid() && remaining == [t] + old(remaining)
    {
      ReversedSnoc(pending, current);
      ConsReassociates(current, Reversed(pending), unread);
      ConsReassociates(t, remaining, Copies(ends, EndToken()));
      pending := pending + [current];
      current := t;
      remaining := [t] + remaining;
    }

    /** The look past a qualified name that tells a pipeline from a list of operations: consumes
        the name, inspects what follows, and puts every token back. */
    method DetectPipeline() returns (isPipeline: bool)
      requires Valid()
      modifies this`current, this`lookahead, this`hasLookahead, this`pending, this`unread, this`remaining, this`ends
      ensures Valid() && remaining == old(remaining) && isPipeline == StartsPipeline(old(View()))
    {
      CurrentIsHead();
      isPipeline := false;
      if Check(Identifier) {
        var next := PeekNext();
        if next.kind == Arrow {
          isPipeline := true;
        } else if next.kind == ColonColon {
          isPipeline := ScanQualified();
        }
      }
    }

    method ScanQualified() returns (arrow: bool)
      requires Valid() && Head(View()) == Identifier
      modifies this`current, this`hasLookahead, this`pending, this`unread, this`remaining, this`ends
      ensures Valid() && remaining == old(remaining)
      ensures arrow == (Head(SkipQualified(Tail(old(View())))) == Arrow)
    {
      var buffered := TakeQualified();
      CurrentIsHead();
      arrow := Check(Arrow);
      PushBackAll(buffered);
    }

    method TakeQualified() returns (buffered: seq<Token>)
      requires Valid() && View() != []
      modifies this`current, this`hasLookahead, this`pending, this`unread, this`remaining, this`ends
      ensures Valid() && !hasLookahead && NoEof(buffered) && buffered + remaining == old(remaining)
      ensures View() == SkipQualified(Tail(old(View())))
    {
      buffered := TakeOnto([]);
      ghost var start := View();
      CurrentIsHead();
      while Check(ColonColon)
        invariant Valid() && !hasLookahead && NoEof(buffered) && buffered + remaining == old(remaining)
        invariant current.kind == Head(View()) && SkipQualified(View()) == SkipQualified(start)
        decreases |View()|
      {
        ghost var s := View();
        buffered := TakeOnto(buffered);
        CurrentIsHead();
        if !Check(Identifier) {
          assert SkipQualified(s) == Tail(s);
          return;
        }
        buffered := TakeOnto(buffered);
        CurrentIsHead();
        assert SkipQualified(s) == SkipQualified(Tail(Tail(s)));
      }
    }

    /** Consumes a token that is there and keeps it. */
    method TakeOnto(buffered: seq<Token>) returns (more: seq<Token>)
      requires Valid() && View() != [] && NoEof(buffered)
      modifies this`current, this`hasLookahead, this`pending, this`unread, this`remaining, this`ends
      ensures Valid() && !hasLookahead && NoEof(more)
      ensures View() == Tail(old(View())) && more + remaining == buffered + old(remaining)
    {
      hide Valid;
      CurrentIsHead();
      var t := Advance();
      more := buffered + [t];
      assert old(remaining) == [t] + remaining;
      Regroup(buffered, t, remaining);
    }

    method PushBackAll(buffered: seq<Token>)
      requires Valid() && !hasLookahead && NoEof(buffered) && IsRest(buffered + remaining, source)
      modifies this`current, this`hasLookahead, this`pending, this`remaining, this`ends
      ensures Valid() && remaining == buffered + old(remaining)
    {
      hide Valid, View, IsRest;
      ghost var whole := buffered + remaining;
      for k := |buffered| downto 0
        invariant Valid() && !hasLookahead && buffered[..k] + remaining == whole
      {
        PutBackOne(buffered, k, remaining);
        RestOfRest(whole, k, source);
        assert whole[k..] == [buffered[k]] + remaining;
        PushBack(buffered[k]);
      }
      hasLookahead := false;
    }
  }

  /** Kinds recovery stops at without consuming them. */
  predicate IsRestart(kind: Kind) {
    IsVisibility(kind) || kind == KW_fn || kind == KW_handler || kind == KW_flow || kind == KW_namespace ||
    kind == KW_using || kind == KW_import || kind == KW_class || kind == KW_type || kind == KW_constraint ||
    kind == KW_adapt || kind == KW_instantiate || kind == KW_priority
  }

  predicate IsVisibility(kind: Kind) {
    kind == KW_public || kind == KW_protected || kind == KW_private || kind == KW_internal || kind == KW_ignore
  }

  function Resync(s: Stream): (r: Stream)
    ensures |r| <= |s|
  {
    if s == [] || Head(s) == RCurly || IsRestart(Head(s)) then s
    else if Head(s) == Semicolon then Tail(s)
    else Resync(Tail(s))
  }

  /** Drops `:: name` pairs; a `::` with no name behind it is dropped alone and ends the name. */
  function SkipQualified(s: Stream): Stream
    decreases |s|
  {
    if Head(s) != ColonColon then s
    else if Second(s) == Identifier then SkipQualified(Tail(Tail(s)))
    else Tail(s)
  }

  predicate StartsPipeline(s: Stream) {
    Head(s) == Identifier &&
    (Second(s) == Arrow || (Second(s) == ColonColon && Head(SkipQualified(Tail(s))) == Arrow))
  }
}
