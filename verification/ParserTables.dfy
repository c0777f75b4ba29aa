/** Tables behind the parser. */
module ParserTables {
  // The sets of kinds and names that decide between branches, written out, and what the two tests that look
  // at more than one token mean.

  import opened Tokens
  import opened TokenBuffer
  import opened Options
  import opened TypeParser
  import opened Grammar

  lemma KindsByTable(kind: Kind)
    ensures IsVisibility(kind) <==> kind in {KW_public, KW_protected, KW_private, KW_internal, KW_ignore}
    ensures IsRestart(kind) <==>
            kind in {KW_public, KW_protected, KW_private, KW_internal, KW_ignore, KW_fn, KW_handler, KW_flow, KW_namespace, KW_using,
                     KW_import, KW_class, KW_type, KW_constraint, KW_adapt, KW_instantiate, KW_priority}
    ensures IsNamePart(kind) <==> kind in {Identifier, KW_void, KW_import, KW_stdlib, KW_record, KW_union}
    ensures IsTypeStart(kind) <==>
            kind in {KW_void, KW_const, KW_owned, KW_shared, KW_weak, Identifier, KW_typename, KW_stdlib, KW_record, KW_union}
  {
  }

  lemma ScalarsByTable(name: string)
    ensures TakesArgs(name) <==> name !in {"void", "int", "bool", "i64", "f64", "string"}
  {
  }

  /** What recovery skips and where it stops: in front of a restart keyword or a closing brace, behind a semicolon. */
  lemma {:induction false} RecoveryStops(junk: Stream, u: Stream)
    requires forall i :: 0 <= i < |junk| ==> junk[i].kind != Semicolon && junk[i].kind != RCurly && !IsRestart(junk[i].kind)
    ensures u == [] || Head(u) == RCurly || IsRestart(Head(u)) ==> Resync(junk + u) == u
    ensures Head(u) == Semicolon && u != [] ==> Resync(junk + u) == Tail(u)
    decreases |junk|
  {
    if junk == [] {
      assert junk + u == u;
    } else {
      assert Tail(junk + u) == junk[1..] + u && Head(junk + u) == junk[0].kind;
      RecoveryStops(junk[1..], u);
    }
  }

  // ---------- Pipelines ----------

  /** A name of `n + 1` parts starts here. */
  predicate PartsAt(s: Stream, n: nat) {
    1 + 2 * n <= |s| && s[0].kind == Identifier &&
    forall k :: 0 <= k < n ==> s[2 * k + 1].kind == ColonColon && s[2 * k + 2].kind == Identifier
  }

  predicate ArrowAt(s: Stream, k: nat) {
    k < |s| && s[k].kind == Arrow
  }

  /** A pipeline is told by an arrow behind a name of any number of parts, which may end in a `::` too many. */
  lemma PipelineMeans(s: Stream)
    ensures StartsPipeline(s) <==>
            exists n: nat :: PartsAt(s, n) && (ArrowAt(s, 2 * n + 1) || (2 * n + 1 < |s| && s[2 * n + 1].kind == ColonColon && ArrowAt(s, 2 * n + 2)))
  {
    if StartsPipeline(s) {
      if Second(s) == Arrow {
        assert s[1].kind == Arrow && PartsAt(s, 0) && ArrowAt(s, 2 * 0 + 1);
      } else {
        var n := PartsSkipped(s, 0);
        assert PartsAt(s, n);
      }
    }
    if n: nat :| PartsAt(s, n) && (ArrowAt(s, 2 * n + 1) || (2 * n + 1 < |s| && s[2 * n + 1].kind == ColonColon && ArrowAt(s, 2 * n + 2))) {
      SkipsParts(s, n, 0);
      assert Head(s) == Identifier && Tail(s) == s[1..];
      if n > 0 { assert s[2 * 0 + 1].kind == ColonColon; }
    }
  }

  lemma {:induction false} SkipsParts(s: Stream, n: nat, k: nat)
    requires PartsAt(s, n) && k <= n
    requires ArrowAt(s, 2 * n + 1) || (2 * n + 1 < |s| && s[2 * n + 1].kind == ColonColon && ArrowAt(s, 2 * n + 2))
    ensures Head(SkipQualified(s[2 * k + 1..])) == Arrow
    decreases n - k
  {
    var t := s[2 * k + 1..];
    if k < n {
      assert t[0] == s[2 * k + 1] && t[1] == s[2 * k + 2];
      assert Tail(Tail(t)) == s[2 * (k + 1) + 1..];
      SkipsParts(s, n, k + 1);
    } else {
      assert t[0] == s[2 * n + 1] && (|t| > 1 ==> t[1] == s[2 * n + 2]);
    }
  }

  lemma {:induction false} PartsSkipped(s: Stream, k: nat) returns (n: nat)
    requires PartsAt(s, k) && Head(SkipQualified(s[2 * k + 1..])) == Arrow
    ensures PartsAt(s, n) && (ArrowAt(s, 2 * n + 1) || (2 * n + 1 < |s| && s[2 * n + 1].kind == ColonColon && ArrowAt(s, 2 * n + 2)))
    decreases |s| - k
  {
    var t := s[2 * k + 1..];
    n := k;
    if Head(t) == ColonColon && Second(t) == Identifier {
      assert t[0] == s[2 * k + 1] && t[1] == s[2 * k + 2];
      assert Tail(Tail(t)) == s[2 * (k + 1) + 1..];
      n := PartsSkipped(s, k + 1);
    } else if Head(t) == ColonColon {
      assert t[0] == s[2 * k + 1] && t[1] == s[2 * k + 2];
    } else {
      assert t[0] == s[2 * k + 1];
    }
  }

  // ---------- Numbers ----------

  function Printed(n: nat): string {
    if n < 10 then [Digit(n)] else Printed(n / 10) + [Digit(n % 10)]
  }

  function Digit(n: nat): char
    requires n < 10
  {
    "0123456789"[n]
  }

  /** A printed number is read back exactly if an int holds it, with zeros in front as well. */
  lemma NumbersRead(n: nat, zeros: nat)
    ensures ParseInt(Zeros(zeros) + Printed(n)) == if n < 0x8000_0000 then Some(n) else None
    ensures IsInt64(Zeros(zeros) + Printed(n)) <==> n < 0x8000_0000_0000_0000
    ensures IsInt64("-" + (Zeros(zeros) + Printed(n))) <==> n <= 0x8000_0000_0000_0000
  {
    PrintedValue(n, zeros);
    var text := Zeros(zeros) + Printed(n);
    assert ("-" + text)[1..] == text;
  }

  function Zeros(n: nat): string {
    seq(n, i => '0')
  }

  lemma DigitMeans(v: nat)
    requires v < 10
    ensures '0' <= Digit(v) <= '9' && Digit(v) as int - '0' as int == v
  {
  }

  lemma OneMoreDigit(front: string, v: nat)
    requires v < 10 && AllDigits(front)
    ensures AllDigits(front + [Digit(v)]) && Decimal(front + [Digit(v)]) == 10 * Decimal(front) + v
  {
    hide Digit;
    DigitMeans(v);
    var text := front + [Digit(v)];
    assert text[..|text| - 1] == front && text[|text| - 1] == Digit(v);
  }

  lemma FrontDigits(text: string)
    requires text != [] && AllDigits(text)
    ensures var v := text[|text| - 1] as int - '0' as int;
            0 <= v < 10 && AllDigits(text[..|text| - 1]) && text == text[..|text| - 1] + [Digit(v)]
  {
    hide Decimal;
  }

  lemma Joins(a: string, b: string, c: string)
    ensures a + (b + c) == (a + b) + c
  {
  }

  lemma {:induction false} PrintedValue(n: nat, zeros: nat)
    ensures var text := Zeros(zeros) + Printed(n); text != [] && text[0] != '-' && AllDigits(text) && Decimal(text) == n
    decreases n
  {
    hide Decimal, AllDigits, Zeros, Digit;
    if n < 10 {
      ZerosValue(zeros);
      OneMoreDigit(Zeros(zeros), n);
    } else {
      PrintedValue(n / 10, zeros);
      OneMoreDigit(Zeros(zeros) + Printed(n / 10), n % 10);
      Joins(Zeros(zeros), Printed(n / 10), [Digit(n % 10)]);
    }
    DigitsHaveNoSign(Zeros(zeros) + Printed(n));
  }

  lemma DigitsHaveNoSign(text: string)
    requires AllDigits(text) && text != []
    ensures text[0] != '-'
  {
  }

  lemma {:induction false} ZerosValue(n: nat)
    ensures AllDigits(Zeros(n)) && Decimal(Zeros(n)) == 0
  {
    if n > 0 {
      ZerosValue(n - 1);
      assert Zeros(n)[..n - 1] == Zeros(n - 1);
    }
  }

  /** Nothing else is a number: a text that is one is read as some number, digit by digit. */
  lemma {:induction false} NumbersWritten(text: string)
    requires ParseInt(text).Some?
    ensures exists zeros :: text == Zeros(zeros) + Printed(ParseInt(text).value)
  {
    var zeros := Written(text);
  }

  lemma {:induction false} Written(text: string) returns (zeros: nat)
    requires text != [] && AllDigits(text)
    ensures text == Zeros(zeros) + Printed(Decimal(text))
    decreases |text|
  {
    hide Decimal, AllDigits, Zeros, Digit;
    var front, v := text[..|text| - 1], text[|text| - 1] as int - '0' as int;
    FrontDigits(text);
    OneMoreDigit(front, v);
    if front == [] {
      zeros := 0;
      ZerosValue(0);
      NoZeros();
    } else {
      zeros := Written(front);
      if Decimal(front) == 0 {
        OneMoreZero(zeros);
        zeros := zeros + 1;
      } else {
        Joins(Zeros(zeros), Printed(Decimal(front)), [Digit(v)]);
      }
    }
  }

  lemma NoZeros()
    ensures Zeros(0) == [] && Decimal([]) == 0 && forall s: string :: Zeros(0) + s == s
  {
  }

  lemma OneMoreZero(n: nat)
    ensures Zeros(n) + Printed(0) == Zeros(n + 1)
  {
    assert Digit(0) == '0';
  }
}
