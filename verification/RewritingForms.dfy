/** What is rewritten into what. */
module RewritingForms {
  // The annotations and words of the formatter's lenient mode, kind by kind and letter by letter.

  import opened Tokens
  import opened Rewriting

  /** Tokens of these kinds stand in front. */
  predicate Starts(ts: seq<Token>, kinds: seq<Kind>) {
    |kinds| <= |ts| && forall i :: 0 <= i < |kinds| ==> ts[i].kind == kinds[i]
  }

  const ATTRIBUTE := [Hash, LBracket, KW_stage, LParen, IntegerLiteral, RParen, RBracket]
  const MARKED := [At, KW_stage, LParen, IntegerLiteral, RParen]
  const PLAIN := [KW_stage, LParen, IntegerLiteral, RParen]

  /** These are the spellings of a stage annotation; all become `stage<N>`, and anything else stays. */
  lemma StagesBecome(ts: seq<Token>)
    ensures Stages([]) == []
    ensures ts != [] ==>
            var n := if Starts(ts, ATTRIBUTE) then 7 else if Starts(ts, MARKED) then 5 else if Starts(ts, PLAIN) then 4 else 0;
            && n <= |ts|
            && (n == 0 ==> Stages(ts) == [ts[0]] + Stages(ts[1..]))
            && (n > 0 ==>
                  var s := Stages(ts);
                  && Starts(s, [KW_stage, LAngle, IntegerLiteral, RAngle]) && s[4..] == Stages(ts[n..])
                  && s[0].text == "stage" && s[1].text == "<" && s[3].text == ">"
                  && exists k :: 0 <= k < n && ts[k].kind == IntegerLiteral && s[2].text == ts[k].text)
  {
    hide Starts, Stages, StageLength;
    Unfolded(ts);
    if ts != [] {
      LengthIs(ts);
      if StageLength(ts) > 0 {
        GroupIs(ts);
      }
    }
  }

  lemma Unfolded(ts: seq<Token>)
    ensures Stages([]) == []
    ensures ts != [] && StageLength(ts) == 0 ==> Stages(ts) == [ts[0]] + Stages(ts[1..])
  {
  }

  lemma LengthIs(ts: seq<Token>)
    ensures StageLength(ts) == if Starts(ts, ATTRIBUTE) then 7 else if Starts(ts, MARKED) then 5 else if Starts(ts, PLAIN) then 4 else 0
  {
    SevenStart(ts);
    FiveStart(ts);
    FourStart(ts);
    hide Starts;
  }

  lemma SevenStart(ts: seq<Token>)
    ensures Starts(ts, ATTRIBUTE) <==>
            KindAt(ts, 0, Hash) && KindAt(ts, 1, LBracket) && KindAt(ts, 2, KW_stage) && Numbered(ts, 3) && KindAt(ts, 6, RBracket)
  {
    if Starts(ts, ATTRIBUTE) {
      assert ts[0].kind == ATTRIBUTE[0] && ts[1].kind == ATTRIBUTE[1] && ts[2].kind == ATTRIBUTE[2] && ts[3].kind == ATTRIBUTE[3];
      assert ts[4].kind == ATTRIBUTE[4] && ts[5].kind == ATTRIBUTE[5] && ts[6].kind == ATTRIBUTE[6];
    }
  }

  lemma FiveStart(ts: seq<Token>)
    ensures Starts(ts, MARKED) <==> KindAt(ts, 0, At) && KindAt(ts, 1, KW_stage) && Numbered(ts, 2)
  {
    if Starts(ts, MARKED) {
      assert ts[0].kind == MARKED[0] && ts[1].kind == MARKED[1] && ts[2].kind == MARKED[2] && ts[3].kind == MARKED[3];
      assert ts[4].kind == MARKED[4];
    }
  }

  lemma FourStart(ts: seq<Token>)
    ensures Starts(ts, PLAIN) <==> KindAt(ts, 0, KW_stage) && Numbered(ts, 1)
  {
    assert Starts(ts, PLAIN) ==> ts[0].kind == PLAIN[0] && ts[1].kind == PLAIN[1] && ts[2].kind == PLAIN[2] && ts[3].kind == PLAIN[3];
  }

  lemma GroupIs(ts: seq<Token>)
    requires StageLength(ts) > 0
    ensures var s := Stages(ts);
            && Starts(s, [KW_stage, LAngle, IntegerLiteral, RAngle]) && s[4..] == Stages(ts[StageLength(ts)..])
            && s[0].text == "stage" && s[1].text == "<" && s[3].text == ">"
            && exists k :: 0 <= k < StageLength(ts) && ts[k].kind == IntegerLiteral && s[2].text == ts[k].text
  {
    var n := StageLength(ts);
    var g := StageGroup(ts);
    assert Stages(ts) == g + Stages(ts[n..]);
    var k := if n == 7 then 4 else if n == 5 then 3 else 2;
    assert KindAt(ts, k, IntegerLiteral) && g[2].text == ts[k].text;
  }

  /** `@public`, `@private`, `@protected` become the word and a colon. */
  lemma VisibilitiesBecome(ts: seq<Token>)
    requires ts != []
    ensures Visibilities(ts) ==
            if |ts| >= 2 && ts[0].kind == At && ts[1].kind in {KW_public, KW_private, KW_protected}
            then [Token(ts[1].kind, ts[1].text, ts[0].loc), Token(Colon, ":", ts[0].loc)] + Visibilities(ts[2..])
            else [ts[0]] + Visibilities(ts[1..])
  {
    assert AtVisibility(ts) <==> |ts| >= 2 && ts[0].kind == At && ts[1].kind in {KW_public, KW_private, KW_protected};
    hide AtVisibility;
  }

  /** `@owned` becomes the word. */
  lemma OwnersBecome(ts: seq<Token>)
    requires ts != []
    ensures Owners(ts) ==
            if |ts| >= 2 && ts[0].kind == At && ts[1].kind == KW_owned then [Token(KW_owned, "owned", ts[0].loc)] + Owners(ts[2..])
            else [ts[0]] + Owners(ts[1..])
  {
    assert AtOwned(ts) <==> |ts| >= 2 && ts[0].kind == At && ts[1].kind == KW_owned;
    hide AtOwned;
  }

  /** Eight kinds of keyword get one spelling each; no other token is touched. */
  lemma WordsBecome(t: Token)
    ensures Named(t) == match t.kind
                        case KW_type => t.(text := "type")
                        case KW_constraint => t.(text := "constraint")
                        case KW_adapt => t.(text := "adapt")
                        case KW_namespace => t.(text := "namespace")
                        case KW_public => t.(text := "public")
                        case KW_owned => t.(text := "owned")
                        case KW_fn => t.(text := "fn")
                        case KW_external => t.(text := "external")
                        case _ => t
  {
  }
}
