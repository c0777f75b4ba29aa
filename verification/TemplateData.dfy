/** Data in templates. */
module TemplateData {
  // What keys stand for, what counts as false, how values are shown, and which errors are reported, said of
  // the rendered text and without the functions that compute it.

  import opened Options
  import opened Templates
  import opened TemplateMeaning

  // ---------- Keys ----------

  /** The pieces between dots. */
  function Split(path: string): (segs: seq<string>)
    ensures segs != []
  {
    if path == "" then [""]
    else if path[0] == '.' then [""] + Split(path[1..])
    else var more := Split(path[1..]); [[path[0]] + more[0]] + more[1..]
  }

  function Dotted(segs: seq<string>): string
    requires segs != []
  {
    if |segs| == 1 then segs[0] else segs[0] + ("." + Dotted(segs[1..]))
  }

  lemma {:induction false} SplitSegment(seg: string, more: string)
    requires '.' !in seg && (more == "" || more[0] == '.')
    ensures Split(seg + more) == if more == "" then [seg] else [seg] + Split(more[1..])
    decreases |seg|
  {
    if seg == "" {
      assert seg + more == more;
    } else {
      assert (seg + more)[1..] == seg[1..] + more && (seg + more)[0] == seg[0];
      SplitSegment(seg[1..], more);
      assert [seg[0]] + seg[1..] == seg;
    }
  }

  /** Splitting undoes joining. */
  lemma {:induction false} SplitOfDotted(segs: seq<string>)
    requires segs != [] && forall i :: 0 <= i < |segs| ==> '.' !in segs[i]
    ensures Split(Dotted(segs)) == segs
    decreases |segs|
  {
    if |segs| == 1 {
      SplitSegment(segs[0], "");
      assert segs[0] + "" == segs[0];
    } else {
      SplitOfDotted(segs[1..]);
      var more := "." + Dotted(segs[1..]);
      assert more[1..] == Dotted(segs[1..]);
      SplitSegment(segs[0], more);
    }
  }

  /** Step by step into objects, absent as soon as a step is. A dot at the very end does not count. */
  function Lookup(cur: Json, segs: seq<string>): Option<Json> {
    if segs == [] || segs == [""] then Some(cur)
    else if segs[0] != "" && cur.Object? && segs[0] in cur.fields then Lookup(cur.fields[segs[0]], segs[1..])
    else None
  }

  lemma {:induction false} DotFound(path: string)
    ensures var dot, segs := Templates.Find(path, "."), Split(path);
            if dot.None? then segs == [path] else segs == [path[..dot.value]] + Split(path[dot.value + 1..])
    decreases |path|
  {
    if path != "" {
      assert path[..1] == [path[0]];
      if path[0] == '.' {
        assert path[..0] == "";
      } else {
        DotFound(path[1..]);
        var dot := Templates.Find(path[1..], ".");
        if dot.None? {
          assert [path[0]] + path[1..] == path;
        } else {
          assert path[..dot.value + 1] == [path[0]] + path[1..][..dot.value];
          assert path[dot.value + 2..] == path[1..][dot.value + 1..];
        }
      }
    }
  }

  lemma {:induction false} WalkIsLookup(cur: Json, path: string)
    ensures Walk(cur, path) == Lookup(cur, Split(path))
    decreases |path|
  {
    DotFound(path);
    var dot := Templates.Find(path, ".");
    if path != "" && dot.Some? {
      var seg, rest := path[..dot.value], path[dot.value + 1..];
      assert ([seg] + Split(rest))[1..] == Split(rest);
      if seg != "" && cur.Object? && seg in cur.fields { WalkIsLookup(cur.fields[seg], rest); }
    }
  }

  /** What a key stands for. */
  function Meant(data: Json, key: string): Option<Json> {
    if key == "." then Some(data) else Lookup(data, Split(key))
  }

  lemma ResolveIsMeant(data: Json, key: string)
    ensures Resolve(data, key) == Meant(data, key)
  {
    WalkIsLookup(data, key);
  }

  /** In particular, names joined by dots are looked up one after the other. */
  lemma NamesAreSteps(data: Json, segs: seq<string>)
    requires segs != [] && forall i :: 0 <= i < |segs| ==> segs[i] != "" && '.' !in segs[i]
    ensures Resolve(data, Dotted(segs)) == Lookup(data, segs)
  {
    SplitOfDotted(segs);
    ResolveIsMeant(data, Dotted(segs));
    LoneDot();
  }

  lemma LoneDot()
    ensures Split(".") == ["", ""]
  {
    assert "."[1..] == "";
  }

  // ---------- What is false ----------

  /** A block is kept unless its key is absent or stands for null, false, zero, or something empty. */
  lemma IfKept(dump: Dumper, head: Head, body: seq<Node>, close: Core, data: Json)
    requires Ok(If(head, body, close))
    ensures var v := Meant(data, head.key);
            var dropped := v == None || v == Some(Null) || v == Some(Bool(false)) || (v.Some? && v.value.Number? && v.value.zero) ||
                           v == Some(Str("")) || v == Some(Array([])) || v == Some(Object(map[]));
            RenderTemplate(dump, PrintAll([If(head, body, close)]), data) ==
            Rendered(if dropped then "" else EvalAll(dump, body, data))
  {
    hide RenderTemplate, Meant, Truthy, Resolve, Ok, EvalAll, PrintAll;
    OneNode(dump, If(head, body, close), data);
    RenderingIsEvaluation(dump, [If(head, body, close)], data);
    ResolveIsMeant(data, head.key);
    Falsities(Meant(data, head.key));
  }

  lemma Falsities(v: Option<Json>)
    ensures Truthy(v) <==>
            !(v == None || v == Some(Null) || v == Some(Bool(false)) || (v.Some? && v.value.Number? && v.value.zero) ||
              v == Some(Str("")) || v == Some(Array([])) || v == Some(Object(map[])))
  {
  }

  lemma OneNode(dump: Dumper, n: Node, data: Json)
    requires Ok(n)
    ensures AllOk([n]) && PrintAll([n]) == Print(n) && EvalAll(dump, [n], data) == Eval(dump, n, data)
  {
    var ns, none: seq<Node> := [n], [];
    assert ns[1..] == none && Print(n) + "" == Print(n) && Eval(dump, n, data) + "" == Eval(dump, n, data);
    assert AllOk(none) && PrintAll(none) == "" && EvalAll(dump, none, data) == "";
  }

  /** Only arrays are repeated over, element by element. */
  lemma EachRepeats(dump: Dumper, head: Head, body: seq<Node>, close: Core, data: Json)
    requires Ok(Each(head, body, close))
    ensures var v := Meant(data, head.key);
            RenderTemplate(dump, PrintAll([Each(head, body, close)]), data) ==
            Rendered(if v.Some? && v.value.Array? then Concat(seq(|v.value.items|, i requires 0 <= i < |v.value.items| => EvalAll(dump, body, v.value.items[i])))
                     else "")
  {
    hide RenderTemplate;
    RenderingIsEvaluation(dump, [Each(head, body, close)], data);
    ResolveIsMeant(data, head.key);
    OneNode(dump, Each(head, body, close), data);
    var v := Meant(data, head.key);
    if v.Some? && v.value.Array? { EachIsConcat(dump, body, v.value.items); }
  }

  function Concat(ss: seq<string>): string {
    if ss == [] then "" else ss[0] + Concat(ss[1..])
  }

  lemma {:induction false} EachIsConcat(dump: Dumper, body: seq<Node>, items: seq<Json>)
    ensures EvalEach(dump, body, items) ==
            Concat(seq(|items|, i requires 0 <= i < |items| => EvalAll(dump, body, items[i])))
    decreases |items|
  {
    var all := seq(|items|, i requires 0 <= i < |items| => EvalAll(dump, body, items[i]));
    if items != [] {
      EachIsConcat(dump, body, items[1..]);
      assert all[1..] == seq(|items[1..]|, i requires 0 <= i < |items[1..]| => EvalAll(dump, body, items[1..][i]));
    }
  }

  // ---------- How values are shown ----------

  /** Reading the five entities back. */
  function Unescape(s: string): string
    decreases |s|
  {
    if s == "" then ""
    else if |s| >= 5 && s[..5] == "&amp;" then "&" + Unescape(s[5..])
    else if |s| >= 4 && s[..4] == "&lt;" then "<" + Unescape(s[4..])
    else if |s| >= 4 && s[..4] == "&gt;" then ">" + Unescape(s[4..])
    else if |s| >= 6 && s[..6] == "&quot;" then "\"" + Unescape(s[6..])
    else if |s| >= 5 && s[..5] == "&#39;" then "'" + Unescape(s[5..])
    else [s[0]] + Unescape(s[1..])
  }

  /** Escaped text holds none of the four characters, and the entities stand for what was there. */
  lemma EscapedIsSafe(s: string)
    ensures forall c :: c in Escape(s) ==> c != '<' && c != '>' && c != '"' && c != '\''
    ensures Unescape(Escape(s)) == s
  {
    EscapedHolds(s);
    EscapedReads(s);
  }

  lemma {:induction false} EscapedHolds(s: string)
    ensures forall c :: c in Escape(s) ==> c != '<' && c != '>' && c != '"' && c != '\''
    decreases |s|
  {
    if s != "" { EscapedHolds(s[1..]); }
  }

  lemma {:induction false} EscapedReads(s: string)
    ensures Unescape(Escape(s)) == s
    decreases |s|
  {
    if s == "" {
      assert Escape(s) == "" && Unescape("") == "";
    } else {
      hide Unescape;
      EscapedReads(s[1..]);
      EntityRead(s[0], Escape(s[1..]));
      assert [s[0]] + s[1..] == s;
    }
  }

  lemma EntityRead(c: char, u: string)
    ensures var e := if c == '&' then "&amp;" else if c == '<' then "&lt;" else if c == '>' then "&gt;"
                     else if c == '"' then "&quot;" else if c == '\'' then "&#39;" else [c];
            Unescape(e + u) == [c] + Unescape(u)
  {
    hide Unescape;
    if c == '&' { Ampersand(u); }
    else if c == '<' { Less(u); }
    else if c == '>' { Greater(u); }
    else if c == '"' { Quote(u); }
    else if c == '\'' { Apostrophe(u); }
    else { Ordinary(c, u); }
  }

  lemma Front(e: string, u: string, n: nat)
    requires n <= |e|
    ensures (e + u)[..n] == e[..n] && (e + u)[|e|..] == u
  {
  }

  lemma Ampersand(u: string)
    ensures Unescape("&amp;" + u) == "&" + Unescape(u)
  {
    Front("&amp;", u, 5);
  }

  lemma Less(u: string)
    ensures Unescape("&lt;" + u) == "<" + Unescape(u)
  {
    Front("&lt;", u, 4);
    assert ("&lt;" + u)[1] == 'l';
  }

  lemma Greater(u: string)
    ensures Unescape("&gt;" + u) == ">" + Unescape(u)
  {
    Front("&gt;", u, 4);
    assert ("&gt;" + u)[1] == 'g';
  }

  lemma Quote(u: string)
    ensures Unescape("&quot;" + u) == "\"" + Unescape(u)
  {
    Front("&quot;", u, 6);
    assert ("&quot;" + u)[1] == 'q';
  }

  lemma Apostrophe(u: string)
    ensures Unescape("&#39;" + u) == "'" + Unescape(u)
  {
    Front("&#39;", u, 5);
    assert ("&#39;" + u)[1] == '#';
  }

  lemma Ordinary(c: char, u: string)
    requires c != '&'
    ensures Unescape([c] + u) == [c] + Unescape(u)
  {
    assert ([c] + u)[0] == c && ([c] + u)[1..] == u;
  }

  /** Ordinary text is left as it is. */
  lemma {:induction false} PlainStays(s: string)
    requires forall c :: c in s ==> c != '&' && c != '<' && c != '>' && c != '"' && c != '\''
    ensures Escape(s) == s
    decreases |s|
  {
    if s != "" {
      assert s[0] in s && forall c :: c in s[1..] ==> c in s;
      PlainStays(s[1..]);
      assert [s[0]] + s[1..] == s;
    }
  }

  /** What a tag shows: nothing for an absent value or null, a text as it is, the two words for truth, a number
      as it is written; escaped in a double tag, as it is in a triple one. */
  lemma ValueShown(dump: Dumper, core: Core, data: Json)
    ensures var v := Meant(data, core.text);
            var shown := if v == None || v == Some(Null) then "" else if v == Some(Bool(true)) then "true"
                         else if v == Some(Bool(false)) then "false" else if v.value.Number? then v.value.shown
                         else if v.value.Str? then v.value.s else dump(v.value);
            && (Ok(Raw(core)) ==> RenderTemplate(dump, PrintAll([Raw(core)]), data) == Rendered(shown))
            && (Ok(Value(core)) ==> RenderTemplate(dump, PrintAll([Value(core)]), data) == Rendered(Escape(shown)))
  {
    hide RenderTemplate, Escape;
    ResolveIsMeant(data, core.text);
    if Ok(Raw(core)) {
      RenderingIsEvaluation(dump, [Raw(core)], data);
      OneNode(dump, Raw(core), data);
    }
    if Ok(Value(core)) {
      RenderingIsEvaluation(dump, [Value(core)], data);
      OneNode(dump, Value(core), data);
    }
  }

  // ---------- What is reported ----------

  /** A block closed by a key that is neither its own nor `if`. */
  lemma MismatchReported(dump: Dumper, head: Head, body: seq<Node>, close: Core, u: string, data: Json)
    requires HeadOk(head, "if") && AllOk(body) && CloseOk(close) && close.text[1..] != "if" && close.text[1..] != head.key
    ensures RenderTemplate(dump, Tagged(Inside(HeadCore(head, "if"))) + (PrintAll(body) + (Tagged(Inside(close)) + u)), data) ==
            Rejected(MismatchedClose(head.key, close.text[1..]))
  {
    hide Render, Tagged, Inside;
    RendersHead(dump, data, head, "if", PrintAll(body) + (Tagged(Inside(close)) + u), true);
    BodyBefore(dump, data, body, close, u);
  }

  lemma BodyBefore(dump: Dumper, data: Json, body: seq<Node>, close: Core, u: string)
    requires AllOk(body) && CloseOk(close)
    ensures Render(dump, data, PrintAll(body) + (Tagged(Inside(close)) + u), false) == Done(EvalAll(dump, body, data), u, close.text[1..])
  {
    hide Render;
    TaggedNotEmpty(Inside(close), u);
    AllRender(dump, data, body, Tagged(Inside(close)) + u, false);
    RendersClose(dump, data, close, u, false);
    BodyOut(EvalAll(dump, body, data), u, close.text[1..]);
  }

  /** A repeated block that is never closed. */
  lemma UnclosedReported(dump: Dumper, head: Head, body: seq<Node>, data: Json)
    requires HeadOk(head, "each") && AllOk(body)
    ensures RenderTemplate(dump, Tagged(Inside(HeadCore(head, "each"))) + PrintAll(body), data) == Rejected(UnclosedEach(head.key))
  {
    hide Render, Tagged, Inside;
    RendersHead(dump, data, head, "each", PrintAll(body), true);
    ScansAll(body, "", 1);
    assert PrintAll(body) + "" == PrintAll(body);
  }

  /** A block of any other kind, and one without a key. */
  lemma UnknownReported(dump: Dumper, block: string, u: string, data: Json)
    requires Free('}', "#" + block) && Trimmed("#" + block) && Trimmed(block)
    ensures var gap := FirstGap(block);
            && (gap.None? ==> RenderTemplate(dump, Tagged("#" + block) + u, data) == Rejected(MissingKey(block)))
            && (gap.Some? && block[..gap.value] !in {"if", "each"} ==>
                  RenderTemplate(dump, Tagged("#" + block) + u, data) == Rejected(UnknownBlock(block[..gap.value])))
  {
    hide Render, Tagged, RenderIf, RenderEach;
    RendersTag(dump, data, "#" + block, u, true);
    BlockTag(block);
    hide Trimmed, Free, Trim, FirstGap;
  }

  lemma BlockTag(block: string)
    requires Trimmed("#" + block) && Trimmed(block)
    ensures Trim("#" + block) == "#" + block && Trim(block) == block && ("#" + block)[1..] == block && ("#" + block)[0] == '#'
  {
    TrimsAfter("", "#" + block);
    TrimsAfter("", block);
    assert "" + ("#" + block) == "#" + block && "" + block == block;
  }

  /** A tag that is never closed. */
  lemma UnterminatedReported(dump: Dumper, ns: seq<Node>, w: string, data: Json)
    requires AllOk(ns) && Templates.Find(w, "}}").None? && (w == "" || w[0] != '{')
    ensures RenderTemplate(dump, PrintAll(ns) + ("{{" + w), data) == Rejected(UnterminatedTag("}}"))
  {
    hide Templates.Find;
    AllRender(dump, data, ns, "{{" + w, true);
    FindHere("{{", w);
    Behind("{{", w);
  }

  /** The first place of a first blank or tab. */
  lemma {:induction false} GapMeans(s: string)
    ensures match FirstGap(s)
            case None => ' ' !in s && '\t' !in s
            case Some(i) => (s[i] == ' ' || s[i] == '\t') && ' ' !in s[..i] && '\t' !in s[..i]
    decreases |s|
  {
    if s != "" && s[0] != ' ' && s[0] != '\t' {
      GapMeans(s[1..]);
      assert s == [s[0]] + s[1..];
      if FirstGap(s).Some? {
        assert s[..FirstGap(s).value] == [s[0]] + s[1..][..FirstGap(s).value - 1];
      }
    }
  }

  /** Blanks, tabs and line ends around a tag's content do not count, and nothing else is taken off. */
  lemma TrimMeans(pre: string, s: string, post: string)
    requires forall c :: c in pre || c in post ==> c in {' ', '\t', '\r', '\n'}
    requires s == "" || (s[0] !in {' ', '\t', '\r', '\n'} && s[|s| - 1] !in {' ', '\t', '\r', '\n'})
    ensures Trim(pre + s + post) == s
  {
    FourBlanks(pre);
    FourBlanks(post);
    TrimsInside(Core(pre, s, post));
  }

  lemma {:induction false} FourBlanks(s: string)
    requires forall c :: c in s ==> c in {' ', '\t', '\r', '\n'}
    ensures Blanks(s)
    decreases |s|
  {
    if s != "" {
      assert s[0] in s && forall c :: c in s[1..] ==> c in s;
      FourBlanks(s[1..]);
    }
  }
}
