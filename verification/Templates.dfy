/** Template rendering as a function of the text that is left to render: tags, blocks, and the rescan for
    the end of a block. */
module Templates {
  import opened Options

  /** JSON values. A number carries its printed form and whether it is zero. */
  datatype Json =
    | Null
    | Bool(b: bool)
    | Number(shown: string, zero: bool)
    | Str(s: string)
    | Array(items: seq<Json>)
    | Object(fields: map<string, Json>)

  datatype Error =
    | UnterminatedTag(delimiter: string)
    | MissingKey(block: string)
    | UnknownBlock(kind: string)
    | MismatchedClose(key: string, got: string)
    | UnexpectedEnd
    | UnterminatedInEach(key: string)
    | UnclosedEach(key: string)
    | StrayInEach(key: string)
    | StrayClose(got: string)

  // ---------- Strings ----------

  /** The first place `pat` stands at in `s`. */
  function Find(s: string, pat: string): (r: Option<nat>)
    requires pat != ""
    ensures r.Some? ==> r.value + |pat| <= |s|
    decreases |s|
  {
    if |s| < |pat| then None
    else if s[..|pat|] == pat then Some(0)
    else
      var later := Find(s[1..], pat);
      if later.Some? then Some(later.value + 1) else None
  }

  predicate IsBlank(c: char) { c == ' ' || c == '\t' || c == '\r' || c == '\n' }

  function TrimLeft(s: string): (r: string)
    ensures |r| <= |s| && (r != "" ==> !IsBlank(r[0]))
    decreases |s|
  {
    if s != "" && IsBlank(s[0]) then TrimLeft(s[1..]) else s
  }

  function TrimRight(s: string): (r: string)
    ensures |r| <= |s|
    decreases |s|
  {
    if s != "" && IsBlank(s[|s| - 1]) then TrimRight(s[..|s| - 1]) else s
  }

  function Trim(s: string): string { TrimRight(TrimLeft(s)) }

  function Escape(s: string): string {
    if s == "" then ""
    else
      (if s[0] == '&' then "&amp;" else if s[0] == '<' then "&lt;" else if s[0] == '>' then "&gt;"
       else if s[0] == '"' then "&quot;" else if s[0] == '\'' then "&#39;" else [s[0]])
      + Escape(s[1..])
  }

  // ---------- Data ----------

  /** How composite values are written out is left open. */
  type Dumper = Json -> string

  function Scalar(dump: Dumper, v: Json): string {
    match v
    case Str(s) => s
    case Null => ""
    case Bool(b) => if b then "true" else "false"
    case Number(shown, _) => shown
    case _ => dump(v)
  }

  function Resolve(ctx: Json, path: string): Option<Json> {
    if path == "." then Some(ctx) else Walk(ctx, path)
  }

  function Walk(cur: Json, path: string): Option<Json>
    decreases |path|
  {
    if path == "" then Some(cur)
    else
      var dot := Find(path, ".");
      var seg := if dot.Some? then path[..dot.value] else path;
      if seg == "" || !cur.Object? || seg !in cur.fields then None
      else if dot.None? then Some(cur.fields[seg])
      else Walk(cur.fields[seg], path[dot.value + 1..])
  }

  predicate Truthy(v: Option<Json>) {
    match v
    case None => false
    case Some(Null) => false
    case Some(Bool(b)) => b
    case Some(Number(_, zero)) => !zero
    case Some(Str(s)) => s != ""
    case Some(Array(items)) => items != []
    case Some(Object(fields)) => fields != map[]
  }

  function Shown(dump: Dumper, v: Option<Json>): string {
    if v.Some? then Scalar(dump, v.value) else ""
  }

  // ---------- Rendering as a function of the text that is left ----------

  /** What rendering produced, what it left, and the key of the close tag it stopped at. */
  datatype Outcome = Failed(error: Error) | Done(out: string, rest: string, closed: string)

  function Prepend(out: string, o: Outcome): Outcome {
    if o.Done? then o.(out := out + o.out) else o
  }

  lemma PrependTwice(a: string, b: string, o: Outcome)
    ensures Prepend(a, Prepend(b, o)) == Prepend(a + b, o)
  {
    if o.Done? {
      assert a + (b + o.out) == (a + b) + o.out;
    }
  }

  /** A tag's content without its delimiters and blanks, whether it was a triple, and what is behind
      it. */
  datatype Tag = Unclosed(delimiter: string) | Tag(raw: bool, core: string, rest: string)

  /** The tag behind an opening `{{`. */
  function ReadTag(s: string): (t: Tag)
    ensures t.Tag? ==> |t.rest| <= |s|
  {
    if s != "" && s[0] == '{' then ReadUpTo(true, s[1..], "}}}") else ReadUpTo(false, s, "}}")
  }

  function ReadUpTo(raw: bool, s: string, delimiter: string): (t: Tag)
    requires delimiter != ""
    ensures t.Tag? ==> |t.rest| <= |s| && t.raw == raw
  {
    var close := Find(s, delimiter);
    if close.None? then Unclosed(delimiter) else Tag(raw, Trim(s[..close.value]), s[close.value + |delimiter|..])
  }

  /** The place of the first blank or tab. */
  function FirstGap(s: string): (r: Option<nat>)
    ensures r.Some? ==> r.value < |s|
  {
    if s == "" then None
    else if s[0] == ' ' || s[0] == '\t' then Some(0)
    else
      var later := FirstGap(s[1..]);
      if later.Some? then Some(later.value + 1) else None
  }

  function Render(dump: Dumper, ctx: Json, s: string, atTop: bool): (o: Outcome)
    ensures o.Done? ==> |o.rest| <= |s|
    decreases |s|, 0, 0
  {
    if s == "" then (if atTop then Done("", "", "") else Failed(UnexpectedEnd))
    else
      var open := Find(s, "{{");
      if open.None? then Done(s, "", "")
      else
        var tag := ReadTag(s[open.value + 2..]);
        if tag.Unclosed? then Failed(UnterminatedTag(tag.delimiter))
        else Prepend(s[..open.value], RenderTag(dump, ctx, tag, atTop))
  }

  function RenderTag(dump: Dumper, ctx: Json, tag: Tag, atTop: bool): (o: Outcome)
    requires tag.Tag?
    ensures o.Done? ==> |o.rest| <= |tag.rest|
    decreases |tag.rest|, 2, 0
  {
    if tag.raw then Prepend(Shown(dump, Resolve(ctx, tag.core)), Render(dump, ctx, tag.rest, atTop))
    else if tag.core == "" || tag.core[0] == '!' then Render(dump, ctx, tag.rest, atTop)
    else if tag.core[0] == '#' then
      var block := RenderBlock(dump, ctx, Trim(tag.core[1..]), tag.rest);
      if block.Done? then Prepend(block.out, Render(dump, ctx, block.rest, atTop)) else block
    else if tag.core[0] == '/' then Done("", tag.rest, Trim(tag.core[1..]))
    else Prepend(Escape(Shown(dump, Resolve(ctx, tag.core))), Render(dump, ctx, tag.rest, atTop))
  }

  function RenderBlock(dump: Dumper, ctx: Json, block: string, s: string): (o: Outcome)
    ensures o.Done? ==> |o.rest| <= |s|
    decreases |s|, 1, 1
  {
    var gap := FirstGap(block);
    if gap.None? then Failed(MissingKey(block))
    else
      var kind, key := block[..gap.value], Trim(block[gap.value..]);
      if kind == "if" then RenderIf(dump, ctx, key, s)
      else if kind == "each" then RenderEach(dump, ctx, key, s)
      else Failed(UnknownBlock(kind))
  }

  function RenderIf(dump: Dumper, ctx: Json, key: string, s: string): (o: Outcome)
    ensures o.Done? ==> |o.rest| <= |s|
    decreases |s|, 1, 0
  {
    var body := Render(dump, ctx, s, false);
    if body.Failed? then body
    else if body.closed != key && body.closed != "if" then Failed(MismatchedClose(key, body.closed))
    else Done(if Truthy(Resolve(ctx, key)) then body.out else "", body.rest, "")
  }

  /** The depth behind a tag: block opens count up, closes count down. */
  function Level(t: string, depth: nat): (d: nat)
    requires depth > 1 || (depth == 1 && !IsClose(t))
    ensures d > 0
  {
    if t == "" then depth else if t[0] == '#' then depth + 1 else if t[0] == '/' then depth - 1 else depth
  }

  /** A tag as the scan sees it: where it opens, its content without leading blanks, what is behind. */
  datatype ScanTag = NoTag | OpenTag | TagAt(open: nat, content: string, rest: string)

  function NextTag(s: string): (r: ScanTag)
    ensures r.TagAt? ==> r.open + 2 <= |s| && |r.rest| < |s|
  {
    var open := Find(s, "{{");
    if open.None? then NoTag
    else InnerTag(open.value, s[open.value + 2..])
  }

  function InnerTag(open: nat, inner: string): (r: ScanTag)
    ensures r.TagAt? ==> r.open == open && |r.rest| < |inner|
  {
    var close := Find(inner, "}}");
    if close.None? then OpenTag else TagAt(open, TrimLeft(inner[..close.value]), inner[close.value + 2..])
  }

  predicate IsClose(content: string) { content != "" && content[0] == '/' }

  /** The end of an `#each` body: the start of its close tag and what is behind it. */
  datatype Scan = NoClose | BadTag | Close(start: nat, rest: string)

  function Shift(k: nat, scan: Scan): Scan {
    if scan.Close? then scan.(start := scan.start + k) else scan
  }

  lemma ShiftTwice(a: nat, b: nat, scan: Scan)
    ensures Shift(a, Shift(b, scan)) == Shift(a + b, scan)
  {
  }

  function ScanBody(s: string, depth: nat): (r: Scan)
    requires depth > 0
    ensures r.Close? ==> r.start + 2 <= |s| && |r.rest| < |s|
    decreases |s|
  {
    match NextTag(s)
    case NoTag => NoClose
    case OpenTag => BadTag
    case TagAt(open, content, rest) =>
      if IsClose(content) && depth == 1 then Close(open, rest)
      else Shift(|s| - |rest|, ScanBody(rest, Level(content, depth)))
  }

  function RenderEach(dump: Dumper, ctx: Json, key: string, s: string): (o: Outcome)
    ensures o.Done? ==> |o.rest| <= |s|
    decreases |s|, 1, 0
  {
    var scan := ScanBody(s, 1);
    match scan
    case BadTag => Failed(UnterminatedInEach(key))
    case NoClose => Failed(UnclosedEach(key))
    case Close(start, rest) =>
      var v := Resolve(ctx, key);
      if v.None? || !v.value.Array? then Done("", rest, "")
      else
        var items := RenderItems(dump, v.value.items, key, s[..start]);
        if items.Done? then Done(items.out, rest, "") else items
  }

  /** The body once for every element, each on a renderer of its own. */
  function RenderItems(dump: Dumper, items: seq<Json>, key: string, body: string): (o: Outcome)
    decreases |body|, 1, |items|
  {
    if items == [] then Done("", "", "")
    else
      var first := Render(dump, items[0], body, true);
      if first.Failed? then first
      else if first.closed != "" then Failed(StrayInEach(key))
      else Prepend(first.out, RenderItems(dump, items[1..], key, body))
  }

  datatype Result = Rendered(output: string) | Rejected(error: Error)

  function RenderTemplate(dump: Dumper, tpl: string, data: Json): Result {
    Verdict(Render(dump, data, tpl, true))
  }

  function Verdict(o: Outcome): Result {
    match o
    case Failed(e) => Rejected(e)
    case Done(out, _, closed) => if closed == "" then Rendered(out) else Rejected(StrayClose(closed))
  }
}
