/** Template trees. */
module TemplateMeaning {
  // What templates mean, as trees: rendering the text of a tree yields its meaning.

  import opened Options
  import opened Templates

  // ---------- Trees ----------

  /** The inside of a tag: blanks, content, blanks. */
  datatype Core = Core(pre: string, text: string, post: string)

  /** The inside of a block tag: `pre # inner kind gap key post`. */
  datatype Head = Head(pre: string, inner: string, gap: string, key: string, post: string)

  datatype Node =
    | Text(s: string)
    | Value(core: Core)
    | Raw(core: Core)
    | Comment(pre: string, note: string)
    | If(head: Head, body: seq<Node>, close: Core)
    | Each(head: Head, body: seq<Node>, close: Core)

  predicate Blanks(s: string) { s == "" || (IsBlank(s[0]) && Blanks(s[1..])) }

  /** No blank at either end. */
  predicate Trimmed(s: string) { s == "" || (!IsBlank(s[0]) && !IsBlank(s[|s| - 1])) }

  /** `c` is never doubled in `s`, nor could it be by what follows. */
  predicate Free(c: char, s: string) {
    s == "" || ((s[0] == c ==> |s| > 1 && s[1] != c) && Free(c, s[1..]))
  }

  function Inside(c: Core): string { c.pre + c.text + c.post }

  predicate CoreOk(c: Core) {
    Blanks(c.pre) && Blanks(c.post) && Trimmed(c.text) && Free('}', Inside(c))
  }

  function HeadCore(h: Head, kind: string): Core {
    Core(h.pre, "#" + (h.inner + (kind + (h.gap + h.key))), h.post)
  }

  predicate HeadOk(h: Head, kind: string) {
    CoreOk(HeadCore(h, kind)) && Blanks(h.inner) && Blanks(h.gap) && h.key != "" && Trimmed(h.key) &&
    h.gap != "" && (h.gap[0] == ' ' || h.gap[0] == '\t')
  }

  /** Trees whose text can be told apart from its tags again. */
  predicate Ok(n: Node)
    decreases n, 1
  {
    match n
    case Text(s) => Free('{', s)
    case Value(core) =>
      CoreOk(core) && core.text != "" && core.text[0] != '!' && core.text[0] != '#' && core.text[0] != '/' &&
      Inside(core)[0] != '{'
    case Raw(core) => CoreOk(core)
    case Comment(pre, note) => Blanks(pre) && Free('}', pre + ("!" + note))
    case If(head, body, close) =>
      HeadOk(head, "if") && AllOk(body) && CloseOk(close) && (close.text[1..] == "if" || close.text[1..] == head.key)
    case Each(head, body, close) => HeadOk(head, "each") && AllOk(body) && CloseOk(close)
  }

  predicate CloseOk(close: Core) {
    CoreOk(close) && close.text != "" && close.text[0] == '/' && Trimmed(close.text[1..])
  }

  predicate AllOk(ns: seq<Node>)
    decreases ns, 0
  {
    ns == [] || (Ok(ns[0]) && AllOk(ns[1..]))
  }

  // ---------- Their text ----------

  function Tagged(inside: string): string { "{{" + (inside + "}}") }

  function Print(n: Node): string
    decreases n, 1
  {
    match n
    case Text(s) => s
    case Value(core) => Tagged(Inside(core))
    case Raw(core) => "{{{" + (Inside(core) + "}}}")
    case Comment(pre, note) => Tagged(pre + ("!" + note))
    case If(head, body, close) => Tagged(Inside(HeadCore(head, "if"))) + (PrintAll(body) + Tagged(Inside(close)))
    case Each(head, body, close) => Tagged(Inside(HeadCore(head, "each"))) + (PrintAll(body) + Tagged(Inside(close)))
  }

  function PrintAll(ns: seq<Node>): string
    decreases ns, 0
  {
    if ns == [] then "" else Print(ns[0]) + PrintAll(ns[1..])
  }

  // ---------- Their meaning ----------

  function Eval(dump: Dumper, n: Node, ctx: Json): string
    decreases n, 1, 0
  {
    match n
    case Text(s) => s
    case Value(core) => Escape(Shown(dump, Resolve(ctx, core.text)))
    case Raw(core) => Shown(dump, Resolve(ctx, core.text))
    case Comment(_, _) => ""
    case If(head, body, _) => if Truthy(Resolve(ctx, head.key)) then EvalAll(dump, body, ctx) else ""
    case Each(head, body, _) =>
      var v := Resolve(ctx, head.key);
      if v.Some? && v.value.Array? then EvalEach(dump, body, v.value.items) else ""
  }

  function EvalAll(dump: Dumper, ns: seq<Node>, ctx: Json): string
    decreases ns, 0, 0
  {
    if ns == [] then "" else Eval(dump, ns[0], ctx) + EvalAll(dump, ns[1..], ctx)
  }

  function EvalEach(dump: Dumper, body: seq<Node>, items: seq<Json>): string
    decreases body, 1, |items|
  {
    if items == [] then "" else EvalAll(dump, body, items[0]) + EvalEach(dump, body, items[1..])
  }

  // ---------- Strings ----------

  lemma {:induction false} FindBehind(c: char, w: string, v: string, pat: string)
    requires Free(c, w) && |pat| >= 2 && pat[0] == c && pat[1] == c
    ensures var r := Find(v, pat);
            Find(w + v, pat) == if r.Some? then Some(|w| + r.value) else None
    decreases |w|
  {
    if w == "" {
      assert w + v == v;
    } else {
      hide Find;
      assert (w + v)[1..] == w[1..] + v;
      FindBehind(c, w[1..], v, pat);
      NotAtFront(c, w, v, pat);
      FindSkips(w + v, pat);
    }
  }

  lemma FindSkips(s: string, pat: string)
    requires s != "" && pat != "" && (|s| >= |pat| ==> s[..|pat|] != pat)
    ensures var r := Find(s[1..], pat); Find(s, pat) == if r.Some? then Some(r.value + 1) else None
  {
  }

  lemma NotAtFront(c: char, w: string, v: string, pat: string)
    requires w != "" && Free(c, w) && |pat| >= 2 && pat[0] == c && pat[1] == c
    ensures |w + v| >= |pat| ==> (w + v)[..|pat|] != pat
  {
    var all := w + v;
    assert all[0] == w[0] && (|w| > 1 ==> all[1] == w[1]);
    if |all| >= |pat| {
      assert all[..|pat|][0] == all[0] && all[..|pat|][1] == all[1];
    }
  }

  lemma FindHere(pat: string, u: string)
    requires pat != ""
    ensures Find(pat + u, pat) == Some(0)
  {
    assert (pat + u)[..|pat|] == pat;
  }

  lemma {:induction false} TrimsLeft(pre: string, s: string)
    requires Blanks(pre) && (s == "" || !IsBlank(s[0]))
    ensures TrimLeft(pre + s) == s
    decreases |pre|
  {
    if pre == "" {
      assert pre + s == s;
    } else {
      assert (pre + s)[1..] == pre[1..] + s;
      TrimsLeft(pre[1..], s);
    }
  }

  lemma {:induction false} TrimsRight(s: string, post: string)
    requires Blanks(post) && (s == "" || !IsBlank(s[|s| - 1]))
    ensures TrimRight(s + post) == s
    decreases |post|
  {
    if post == "" {
      assert s + post == s;
    } else {
      LastBlank(post);
      var most := post[..|post| - 1];
      assert (s + post)[..|s + post| - 1] == s + most;
      assert (s + post)[|s + post| - 1] == post[|post| - 1];
      TrimsRight(s, most);
    }
  }

  lemma {:induction false} LastBlank(s: string)
    requires Blanks(s) && s != ""
    ensures IsBlank(s[|s| - 1]) && Blanks(s[..|s| - 1])
    decreases |s|
  {
    if |s| > 1 {
      LastBlank(s[1..]);
      assert s[..|s| - 1][1..] == s[1..][..|s[1..]| - 1];
    }
  }

  lemma {:induction false} AllBlankLeft(s: string)
    requires Blanks(s)
    ensures TrimLeft(s) == ""
    decreases |s|
  {
    if s != "" { AllBlankLeft(s[1..]); }
  }

  lemma TrimsInside(c: Core)
    requires Blanks(c.pre) && Blanks(c.post) && Trimmed(c.text)
    ensures Trim(Inside(c)) == c.text
  {
    if c.text == "" {
      BlanksJoin(c.pre, c.post);
      assert Inside(c) == c.pre + c.post;
      AllBlankLeft(c.pre + c.post);
    } else {
      assert Inside(c) == c.pre + (c.text + c.post);
      TrimsLeft(c.pre, c.text + c.post);
      TrimsRight(c.text, c.post);
    }
  }

  lemma {:induction false} BlanksJoin(a: string, b: string)
    requires Blanks(a) && Blanks(b)
    ensures Blanks(a + b)
    decreases |a|
  {
    if a == "" {
      assert a + b == b;
    } else {
      assert (a + b)[1..] == a[1..] + b;
      BlanksJoin(a[1..], b);
    }
  }

  // ---------- One tag ----------

  lemma CloseFound(w: string, u: string)
    requires Free('}', w)
    ensures Find(w + ("}}" + u), "}}") == Some(|w|) && Find(w + ("}}}" + u), "}}}") == Some(|w|)
    ensures Find(w + ("}}}" + u), "}}") == Some(|w|)
  {
    hide Find, Free;
    FindHere("}}", u);
    FindHere("}}}", u);
    FindHere("}}", "}" + u);
    assert "}}" + ("}" + u) == "}}}" + u;
    FindBehind('}', w, "}}" + u, "}}");
    FindBehind('}', w, "}}}" + u, "}}}");
    FindBehind('}', w, "}}}" + u, "}}");
  }

  lemma Parts(w: string, mark: string, u: string)
    ensures var s := w + (mark + u);
            s[..|w|] == w && s[|w| + |mark|..] == u
  {
  }

  /** A double tag is read whole. */
  lemma TaggedReads(w: string, u: string)
    requires Free('}', w) && (w == "" || w[0] != '{')
    ensures ReadTag(w + ("}}" + u)) == Tag(false, Trim(w), u)
  {
    hide Trim, Find;
    CloseFound(w, u);
    Parts(w, "}}", u);
    assert (w + ("}}" + u))[0] == if w == "" then '}' else w[0];
  }

  lemma TripleReads(w: string, u: string)
    requires Free('}', w)
    ensures ReadTag("{" + (w + ("}}}" + u))) == Tag(true, Trim(w), u)
  {
    hide Trim, Find;
    CloseFound(w, u);
    Parts(w, "}}}", u);
    assert ("{" + (w + ("}}}" + u)))[1..] == w + ("}}}" + u);
  }

  lemma TaggedSplits(w: string, u: string)
    ensures Tagged(w) + u == "{{" + (w + ("}}" + u))
  {
  }

  /** Rendering goes into a tag at once. */
  lemma RendersTag(dump: Dumper, ctx: Json, w: string, u: string, atTop: bool)
    requires Free('}', w) && (w == "" || w[0] != '{')
    ensures Render(dump, ctx, Tagged(w) + u, atTop) == RenderTag(dump, ctx, Tag(false, Trim(w), u), atTop)
  {
    hide Find, ReadTag, RenderTag, Trim;
    TaggedSplits(w, u);
    FindHere("{{", w + ("}}" + u));
    TaggedReads(w, u);
    Behind("{{", w + ("}}" + u));
    NothingInFront(RenderTag(dump, ctx, Tag(false, Trim(w), u), atTop));
  }

  lemma Behind(mark: string, s: string)
    ensures (mark + s)[|mark|..] == s && (mark + s)[..0] == ""
  {
  }

  lemma NothingInFront(o: Outcome)
    ensures Prepend("", o) == o
  {
    if o.Done? { assert "" + o.out == o.out; }
  }

  lemma RendersTriple(dump: Dumper, ctx: Json, w: string, u: string, atTop: bool)
    requires Free('}', w)
    ensures Render(dump, ctx, "{{{" + (w + "}}}") + u, atTop) == RenderTag(dump, ctx, Tag(true, Trim(w), u), atTop)
  {
    hide Find, ReadTag, RenderTag, Trim;
    var s := "{" + (w + ("}}}" + u));
    assert "{{{" + (w + "}}}") + u == "{{" + s;
    FindHere("{{", s);
    TripleReads(w, u);
    Behind("{{", s);
    NothingInFront(RenderTag(dump, ctx, Tag(true, Trim(w), u), atTop));
  }

  /** Text goes out as it is. */
  lemma RendersText(dump: Dumper, ctx: Json, t: string, u: string, atTop: bool)
    requires Free('{', t) && (atTop || u != "")
    ensures Render(dump, ctx, t + u, atTop) == Prepend(t, Render(dump, ctx, u, atTop))
  {
    hide Find, ReadTag, RenderTag, Prepend;
    FindBehind('{', t, u, "{{");
    if t == "" {
      assert t + u == u;
      NothingInFront(Render(dump, ctx, u, atTop));
    } else if Find(u, "{{").Some? {
      TextThenTag(dump, ctx, t, u, atTop);
    } else {
      OnlyText(dump, ctx, t, u, atTop);
    }
  }

  lemma TextThenTag(dump: Dumper, ctx: Json, t: string, u: string, atTop: bool)
    requires Find(u, "{{").Some? && Find(t + u, "{{") == Some(|t| + Find(u, "{{").value)
    ensures Render(dump, ctx, t + u, atTop) == Prepend(t, Render(dump, ctx, u, atTop))
  {
    hide Find, ReadTag, RenderTag;
    var open := Find(u, "{{").value;
    var tag := ReadTag(u[open + 2..]);
    DropBoth(t, u, open + 2);
    assert (t + u)[..|t| + open] == t + u[..open];
    if tag.Tag? {
      PrependTwice(t, u[..open], RenderTag(dump, ctx, tag, atTop));
    }
  }

  lemma OnlyText(dump: Dumper, ctx: Json, t: string, u: string, atTop: bool)
    requires t != "" && (atTop || u != "") && Find(u, "{{").None? && Find(t + u, "{{").None?
    ensures Render(dump, ctx, t + u, atTop) == Prepend(t, Render(dump, ctx, u, atTop))
  {
    hide Find, ReadTag, RenderTag;
    if u == "" {
      assert t + u == t && t + "" == t;
    }
  }

  // ---------- The scan for the end of a block passes over whole trees ----------

  lemma {:induction false} ScansText(t: string, u: string, depth: nat)
    requires Free('{', t) && depth > 0
    ensures ScanBody(t + u, depth) == Shift(|t|, ScanBody(u, depth))
  {
    hide NextTag, Level;
    NextTagBehind(t, u);
    var tag := NextTag(u);
    if tag.TagAt? && !(IsClose(tag.content) && depth == 1) {
      ShiftTwice(|t|, |u| - |tag.rest|, ScanBody(tag.rest, Level(tag.content, depth)));
    }
  }

  lemma NextTagBehind(t: string, u: string)
    requires Free('{', t)
    ensures var tag := NextTag(u);
            NextTag(t + u) == if tag.TagAt? then tag.(open := |t| + tag.open) else tag
  {
    hide Find, InnerTag;
    FindBehind('{', t, u, "{{");
    if Find(u, "{{").Some? {
      FoundBehind(t, u, t + u, Find(u, "{{").value);
    }
  }

  lemma NextTagAt(s: string, open: nat)
    requires Find(s, "{{") == Some(open)
    ensures NextTag(s) == InnerTag(open, s[open + 2..])
  {
    hide Find, InnerTag;
  }

  lemma FoundBehind(t: string, u: string, s: string, open: nat)
    requires Find(u, "{{") == Some(open) && s == t + u && Find(s, "{{") == Some(|t| + open)
    ensures var tag := NextTag(u);
            NextTag(s) == if tag.TagAt? then tag.(open := |t| + tag.open) else tag
  {
    hide Find, InnerTag, NextTag;
    NextTagAt(u, open);
    NextTagAt(s, |t| + open);
    InnerBehind(t, u, s, open, |t| + open);
  }

  lemma InnerBehind(t: string, u: string, s: string, a: nat, b: nat)
    requires s == t + u && b == |t| + a && a + 2 <= |u|
    ensures var tag := InnerTag(a, u[a + 2..]);
            InnerTag(b, s[b + 2..]) == if tag.TagAt? then tag.(open := b) else tag
  {
    hide InnerTag;
    assert s[b + 2..] == u[a + 2..];
    InnerMoves(a, b, u[a + 2..]);
  }

  lemma DropBoth(t: string, u: string, k: nat)
    requires k <= |u|
    ensures (t + u)[|t| + k..] == u[k..]
  {
  }

  lemma InnerMoves(a: nat, b: nat, inner: string)
    ensures var tag := InnerTag(a, inner);
            InnerTag(b, inner) == if tag.TagAt? then tag.(open := b) else tag
  {
  }

  lemma ScansTag(w: string, u: string)
    requires Free('}', w)
    ensures NextTag(Tagged(w) + u) == TagAt(0, TrimLeft(w), u)
  {
    hide Find, InnerTag, Tagged;
    TaggedSplits(w, u);
    var s := w + ("}}" + u);
    FindHere("{{", s);
    Behind("{{", s);
    InnerReads(w, u);
  }

  lemma InnerReads(w: string, u: string)
    requires Free('}', w)
    ensures InnerTag(0, w + ("}}" + u)) == TagAt(0, TrimLeft(w), u)
  {
    hide Find, TrimLeft;
    CloseFound(w, u);
    Parts(w, "}}", u);
  }

  lemma ScansTriple(w: string, u: string)
    requires Free('}', w)
    ensures NextTag("{{{" + (w + "}}}") + u) == TagAt(0, "{" + w, "}" + u)
  {
    hide Find, InnerTag;
    var x := "{" + w;
    assert x[1..] == w;
    var s := x + ("}}" + ("}" + u));
    assert "{{{" + (w + "}}}") + u == "{{" + s;
    FindHere("{{", s);
    Behind("{{", s);
    InnerReads(x, "}" + u);
    assert TrimLeft(x) == x;
  }

  /** A tag that neither opens nor closes a block leaves the depth alone. */
  lemma ScansPlain(w: string, u: string, depth: nat)
    requires Free('}', w) && depth > 0
    requires TrimLeft(w) == "" || (TrimLeft(w)[0] != '#' && TrimLeft(w)[0] != '/')
    ensures ScanBody(Tagged(w) + u, depth) == Shift(|Tagged(w)|, ScanBody(u, depth))
  {
    hide NextTag, TrimLeft;
    ScansTag(w, u);
  }

  lemma CoreStarts(c: Core)
    requires CoreOk(c) && c.text != ""
    ensures TrimLeft(Inside(c)) == c.text + c.post
  {
    assert Inside(c) == c.pre + (c.text + c.post);
    TrimsLeft(c.pre, c.text + c.post);
  }

  lemma {:induction false} ScansNode(n: Node, u: string, depth: nat)
    requires Ok(n) && depth > 0
    ensures ScanBody(Print(n) + u, depth) == Shift(|Print(n)|, ScanBody(u, depth))
    decreases n, 1
  {
    match n
    case Text(s) => ScansText(s, u, depth);
    case Value(core) =>
      CoreStarts(core);
      ScansPlain(Inside(core), u, depth);
    case Raw(core) => ScansRaw(Inside(core), u, depth);
    case Comment(pre, note) =>
      TrimsLeft(pre, "!" + note);
      ScansPlain(pre + ("!" + note), u, depth);
    case If(head, body, close) => ScansBlock(HeadCore(head, "if"), body, close, u, depth);
    case Each(head, body, close) => ScansBlock(HeadCore(head, "each"), body, close, u, depth);
  }

  lemma ScansRaw(w: string, u: string, depth: nat)
    requires Free('}', w) && depth > 0
    ensures ScanBody("{{{" + (w + "}}}") + u, depth) == Shift(|w| + 6, ScanBody(u, depth))
  {
    hide NextTag, ScanBody;
    ScansTriple(w, u);
    ScansText("}", u, depth);
    RawScan(w, u, depth);
    ShiftTwice(|w| + 5, 1, ScanBody(u, depth));
  }

  lemma RawScan(w: string, u: string, depth: nat)
    requires depth > 0 && NextTag("{{{" + (w + "}}}") + u) == TagAt(0, "{" + w, "}" + u)
    ensures ScanBody("{{{" + (w + "}}}") + u, depth) == Shift(|w| + 5, ScanBody("}" + u, depth))
  {
    hide NextTag;
    assert ("{" + w)[0] == '{';
  }

  lemma {:induction false} ScansBlock(open: Core, body: seq<Node>, close: Core, u: string, depth: nat)
    requires CoreOk(open) && open.text != "" && open.text[0] == '#' && AllOk(body) && CloseOk(close) && depth > 0
    ensures var s := Tagged(Inside(open)) + (PrintAll(body) + Tagged(Inside(close)));
            ScanBody(s + u, depth) == Shift(|s|, ScanBody(u, depth))
    decreases body, 2
  {
    hide ScanBody, Tagged, Inside;
    var o, b, c := Tagged(Inside(open)), PrintAll(body), Tagged(Inside(close));
    assert (o + (b + c)) + u == o + (b + (c + u));
    OpensBlock(open, b + (c + u), depth);
    ScansAll(body, c + u, depth + 1);
    ClosesBlock(close, u, depth + 1);
    ShiftTwice(|b|, |c|, ScanBody(u, depth));
    ShiftTwice(|o|, |b| + |c|, ScanBody(u, depth));
  }

  lemma OpensBlock(open: Core, u: string, depth: nat)
    requires CoreOk(open) && open.text != "" && open.text[0] == '#' && depth > 0
    ensures ScanBody(Tagged(Inside(open)) + u, depth) == Shift(|Tagged(Inside(open))|, ScanBody(u, depth + 1))
  {
    hide NextTag, TrimLeft, Inside;
    CoreStarts(open);
    ScansTag(Inside(open), u);
  }

  lemma ClosesBlock(close: Core, u: string, depth: nat)
    requires CloseOk(close) && depth > 0
    ensures ScanBody(Tagged(Inside(close)) + u, depth) ==
            if depth == 1 then Close(0, u) else Shift(|Tagged(Inside(close))|, ScanBody(u, depth - 1))
  {
    hide NextTag, TrimLeft, Inside;
    CoreStarts(close);
    ScansTag(Inside(close), u);
  }

  lemma {:induction false} ScansAll(ns: seq<Node>, u: string, depth: nat)
    requires AllOk(ns) && depth > 0
    ensures ScanBody(PrintAll(ns) + u, depth) == Shift(|PrintAll(ns)|, ScanBody(u, depth))
    decreases ns, 0
  {
    if ns == [] {
      assert PrintAll(ns) + u == u;
    } else {
      assert PrintAll(ns) + u == Print(ns[0]) + (PrintAll(ns[1..]) + u);
      ScansNode(ns[0], PrintAll(ns[1..]) + u, depth);
      ScansAll(ns[1..], u, depth);
      ShiftTwice(|Print(ns[0])|, |PrintAll(ns[1..])|, ScanBody(u, depth));
    }
  }

  // ---------- Blocks ----------

  lemma {:induction false} GapFound(kind: string, rest: string)
    requires rest != "" && (rest[0] == ' ' || rest[0] == '\t') && (kind == "if" || kind == "each")
    ensures FirstGap(kind + rest) == Some(|kind|)
  {
    assert FirstGap(rest) == Some(0);
    if kind == "if" {
      GapBehind("if", rest);
    } else {
      GapBehind("each", rest);
    }
  }

  lemma {:induction false} GapBehind(w: string, rest: string)
    requires (forall i :: 0 <= i < |w| ==> w[i] != ' ' && w[i] != '\t') && FirstGap(rest) == Some(0)
    ensures FirstGap(w + rest) == Some(|w|)
    decreases |w|
  {
    if w == "" {
      assert w + rest == rest;
    } else {
      assert (w + rest)[1..] == w[1..] + rest;
      GapBehind(w[1..], rest);
    }
  }

  /** The block tag is taken apart into its kind and its key. */
  lemma HeadReads(h: Head, kind: string)
    requires HeadOk(h, kind) && (kind == "if" || kind == "each")
    ensures var block := Trim(HeadCore(h, kind).text[1..]);
            && FirstGap(block) == Some(|kind|) && block[..|kind|] == kind && Trim(block[|kind|..]) == h.key
  {
    hide FirstGap, Trim, CoreOk;
    var tail := h.gap + h.key;
    var all := kind + tail;
    assert HeadCore(h, kind).text[1..] == h.inner + all;
    assert all[|all| - 1] == h.key[|h.key| - 1] && all[0] == kind[0];
    TrimsAfter(h.inner, all);
    assert tail[0] == h.gap[0];
    GapFound(kind, tail);
    assert all[..|kind|] == kind && all[|kind|..] == tail;
    TrimsAfter(h.gap, h.key);
  }

  lemma TrimsAfter(pre: string, s: string)
    requires Blanks(pre) && Trimmed(s)
    ensures Trim(pre + s) == s
  {
    var c := Core(pre, s, "");
    assert Inside(c) == pre + s;
    TrimsInside(c);
  }

  /** Behind the head of a block, rendering goes on with the block. */
  lemma RendersHead(dump: Dumper, ctx: Json, h: Head, kind: string, u: string, atTop: bool)
    requires HeadOk(h, kind) && (kind == "if" || kind == "each")
    ensures var block := if kind == "if" then RenderIf(dump, ctx, h.key, u) else RenderEach(dump, ctx, h.key, u);
            Render(dump, ctx, Tagged(Inside(HeadCore(h, kind))) + u, atTop) ==
            if block.Done? then Prepend(block.out, Render(dump, ctx, block.rest, atTop)) else block
  {
    hide Render, RenderIf, RenderEach, Trim, FirstGap, Inside;
    var c := HeadCore(h, kind);
    InsideStarts(c);
    RendersTag(dump, ctx, Inside(c), u, atTop);
    TrimsInside(c);
    HeadReads(h, kind);
  }

  lemma InsideStarts(c: Core)
    requires CoreOk(c) && c.text != "" && c.text[0] != '{'
    ensures Inside(c) != "" && Inside(c)[0] != '{'
  {
    assert Inside(c)[0] == if c.pre == "" then c.text[0] else c.pre[0];
  }

  lemma RendersClose(dump: Dumper, ctx: Json, close: Core, u: string, atTop: bool)
    requires CloseOk(close)
    ensures Render(dump, ctx, Tagged(Inside(close)) + u, atTop) == Done("", u, close.text[1..])
  {
    hide Render, Inside;
    InsideStarts(close);
    RendersTag(dump, ctx, Inside(close), u, atTop);
    TrimsInside(close);
    TrimsAfter("", close.text[1..]);
    assert "" + close.text[1..] == close.text[1..];
  }

  // ---------- Rendering the text of a tree yields its meaning ----------

  lemma {:induction false} NodeRenders(dump: Dumper, ctx: Json, n: Node, u: string, atTop: bool)
    requires Ok(n) && (atTop || u != "")
    ensures Render(dump, ctx, Print(n) + u, atTop) == Prepend(Eval(dump, n, ctx), Render(dump, ctx, u, atTop))
    decreases n, 1, 0
  {
    hide Render, Inside;
    match n
    case Text(s) => RendersText(dump, ctx, s, u, atTop);
    case Value(core) => ValueRenders(dump, ctx, core, u, atTop);
    case Raw(core) =>
      RendersTriple(dump, ctx, Inside(core), u, atTop);
      TrimsInside(core);
    case Comment(pre, note) => CommentRenders(dump, ctx, pre, note, u, atTop);
    case If(head, body, close) => IfRenders(dump, ctx, head, body, close, u, atTop);
    case Each(head, body, close) => EachRenders(dump, ctx, head, body, close, u, atTop);
  }

  lemma ValueRenders(dump: Dumper, ctx: Json, core: Core, u: string, atTop: bool)
    requires Ok(Value(core))
    ensures Render(dump, ctx, Tagged(Inside(core)) + u, atTop) ==
            Prepend(Escape(Shown(dump, Resolve(ctx, core.text))), Render(dump, ctx, u, atTop))
  {
    hide Render, Escape, Shown, Resolve;
    RendersTag(dump, ctx, Inside(core), u, atTop);
    TrimsInside(core);
  }

  lemma CommentRenders(dump: Dumper, ctx: Json, pre: string, note: string, u: string, atTop: bool)
    requires Ok(Comment(pre, note))
    ensures Render(dump, ctx, Tagged(pre + ("!" + note)) + u, atTop) == Prepend("", Render(dump, ctx, u, atTop))
  {
    hide Render;
    var w := pre + ("!" + note);
    assert w[0] == if pre == "" then '!' else pre[0];
    RendersTag(dump, ctx, w, u, atTop);
    TrimsLeft(pre, "!" + note);
    TrimKeepsFirst("!" + note);
    NothingInFront(Render(dump, ctx, u, atTop));
  }

  lemma {:induction false} TrimKeepsFirst(s: string)
    requires s != "" && !IsBlank(s[0])
    ensures TrimRight(s) != "" && TrimRight(s)[0] == s[0]
    decreases |s|
  {
    if IsBlank(s[|s| - 1]) {
      TrimKeepsFirst(s[..|s| - 1]);
    }
  }

  lemma {:induction false} IfRenders(dump: Dumper, ctx: Json, head: Head, body: seq<Node>, close: Core, u: string, atTop: bool)
    requires Ok(If(head, body, close))
    ensures Render(dump, ctx, Print(If(head, body, close)) + u, atTop) ==
            Prepend(Eval(dump, If(head, body, close), ctx), Render(dump, ctx, u, atTop))
    decreases body, 2, 0
  {
    hide Render, Inside, Tagged, Resolve, Truthy, Prepend;
    var o, b, c := Tagged(Inside(HeadCore(head, "if"))), PrintAll(body), Tagged(Inside(close));
    assert (o + (b + c)) + u == o + (b + (c + u));
    RendersHead(dump, ctx, head, "if", b + (c + u), atTop);
    TaggedNotEmpty(Inside(close), u);
    AllRender(dump, ctx, body, c + u, false);
    RendersClose(dump, ctx, close, u, false);
    BodyOut(EvalAll(dump, body, ctx), u, close.text[1..]);
  }

  lemma TaggedNotEmpty(w: string, u: string)
    ensures Tagged(w) + u != ""
  {
  }

  lemma BodyOut(out: string, rest: string, closed: string)
    ensures Prepend(out, Done("", rest, closed)) == Done(out, rest, closed)
  {
    assert out + "" == out;
  }

  lemma {:induction false} EachRenders(dump: Dumper, ctx: Json, head: Head, body: seq<Node>, close: Core, u: string, atTop: bool)
    requires Ok(Each(head, body, close))
    ensures Render(dump, ctx, Print(Each(head, body, close)) + u, atTop) ==
            Prepend(Eval(dump, Each(head, body, close), ctx), Render(dump, ctx, u, atTop))
    decreases body, 2, 0
  {
    hide Render, Inside, Tagged, Resolve, Prepend, ScanBody, RenderItems;
    var o, b, c := Tagged(Inside(HeadCore(head, "each"))), PrintAll(body), Tagged(Inside(close));
    assert (o + (b + c)) + u == o + (b + (c + u));
    RendersHead(dump, ctx, head, "each", b + (c + u), atTop);
    ScansAll(body, c + u, 1);
    ClosesBlock(close, u, 1);
    assert (b + (c + u))[..|b|] == b;
    var v := Resolve(ctx, head.key);
    if v.Some? && v.value.Array? {
      ItemsRender(dump, v.value.items, head.key, body);
    }
  }

  lemma {:induction false} ItemsRender(dump: Dumper, items: seq<Json>, key: string, body: seq<Node>)
    requires AllOk(body)
    ensures RenderItems(dump, items, key, PrintAll(body)) == Done(EvalEach(dump, body, items), "", "")
    decreases body, 1, |items|
  {
    hide Render;
    if items != [] {
      AllRender(dump, items[0], body, "", true);
      assert PrintAll(body) + "" == PrintAll(body);
      assert Render(dump, items[0], "", true) == Done("", "", "") by { EmptyRenders(dump, items[0]); }
      BodyOut(EvalAll(dump, body, items[0]), "", "");
      ItemsRender(dump, items[1..], key, body);
    }
  }

  lemma EmptyRenders(dump: Dumper, ctx: Json)
    ensures Render(dump, ctx, "", true) == Done("", "", "")
  {
  }

  lemma {:induction false} AllRender(dump: Dumper, ctx: Json, ns: seq<Node>, u: string, atTop: bool)
    requires AllOk(ns) && (atTop || u != "")
    ensures Render(dump, ctx, PrintAll(ns) + u, atTop) == Prepend(EvalAll(dump, ns, ctx), Render(dump, ctx, u, atTop))
    decreases ns, 0, 0
  {
    hide Render;
    if ns == [] {
      assert PrintAll(ns) + u == u;
      NothingInFront(Render(dump, ctx, u, atTop));
    } else {
      var more := PrintAll(ns[1..]) + u;
      assert PrintAll(ns) + u == Print(ns[0]) + more;
      NodeRenders(dump, ctx, ns[0], more, atTop);
      AllRender(dump, ctx, ns[1..], u, atTop);
      PrependTwice(Eval(dump, ns[0], ctx), EvalAll(dump, ns[1..], ctx), Render(dump, ctx, u, atTop));
    }
  }

  /** Rendering is evaluation, for every tree and every data. */
  lemma RenderingIsEvaluation(dump: Dumper, ns: seq<Node>, data: Json)
    requires AllOk(ns)
    ensures RenderTemplate(dump, PrintAll(ns), data) == Rendered(EvalAll(dump, ns, data))
  {
    hide Render;
    AllRender(dump, data, ns, "", true);
    assert PrintAll(ns) + "" == PrintAll(ns);
    EmptyRenders(dump, data);
    BodyOut(EvalAll(dump, ns, data), "", "");
  }

  /** A close tag that closes nothing is reported exactly if it has a key. Without one it ends the template:
      what stands behind it is neither rendered nor reported. */
  lemma StrayCloseReported(dump: Dumper, ns: seq<Node>, close: Core, u: string, data: Json)
    requires AllOk(ns) && CloseOk(close)
    ensures RenderTemplate(dump, PrintAll(ns) + (Tagged(Inside(close)) + u), data) ==
            if close.text[1..] == "" then Rendered(EvalAll(dump, ns, data)) else Rejected(StrayClose(close.text[1..]))
  {
    hide Render;
    AllRender(dump, data, ns, Tagged(Inside(close)) + u, true);
    RendersClose(dump, data, close, u, true);
    BodyOut(EvalAll(dump, ns, data), u, close.text[1..]);
  }

  /** Such a template. */
  lemma RestIsDropped(dump: Dumper, data: Json)
    ensures RenderTemplate(dump, "a{{/}}b", data) == Rendered("a")
  {
    hide RenderTemplate;
    var close := Core("", "/", "");
    BareClose();
    StrayCloseReported(dump, [Text("a")], close, "b", data);
    JustText(dump, "a", data);
    assert "a" + (Tagged("/") + "b") == "a{{/}}b";
  }

  lemma BareClose()
    ensures var close := Core("", "/", ""); CloseOk(close) && close.text[1..] == "" && Inside(close) == "/"
  {
  }

  lemma JustText(dump: Dumper, s: string, data: Json)
    requires Free('{', s)
    ensures AllOk([Text(s)]) && PrintAll([Text(s)]) == s && EvalAll(dump, [Text(s)], data) == s
  {
    var ns, none: seq<Node> := [Text(s)], [];
    assert ns[1..] == none && s + "" == s;
    assert AllOk(none) && PrintAll(none) == "" && EvalAll(dump, none, data) == "";
    assert Print(ns[0]) == s && Eval(dump, ns[0], data) == s;
  }
}
