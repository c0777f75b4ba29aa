/** Summary templates: literal text with doubled braces, and placeholders, each resolved once; the parser
    and the printer it is measured by. */
module SummaryTemplate {
  import opened Options

  datatype Segment = Literal(text: string) | Hole(expr: string)

  datatype Error = NestedOpen | Unterminated | EmptyHole | StrayClose

  datatype Outcome = Parsed(segments: seq<Segment>) | Failed(error: Error)

  // ---------- The grammar ----------

  predicate IsBlank(c: char) { c == ' ' || c == '\t' || c == '\n' || c == '\r' }

  function TrimLeft(s: string): string {
    if s != "" && IsBlank(s[0]) then TrimLeft(s[1..]) else s
  }

  function TrimRight(s: string): string {
    if s != "" && IsBlank(s[|s| - 1]) then TrimRight(s[..|s| - 1]) else s
  }

  function Trim(s: string): string { TrimRight(TrimLeft(s)) }

  /** Literal text is put out only when something follows it that is not literal. */
  function Flushed(done: seq<Segment>, lit: string): seq<Segment> {
    if lit == "" then done else done + [Literal(lit)]
  }

  /** The place of the first brace of either kind. */
  function FirstBrace(s: string): (r: Option<nat>)
    ensures r.Some? ==> r.value < |s| && (s[r.value] == '{' || s[r.value] == '}')
  {
    if s == "" then None
    else if s[0] == '{' || s[0] == '}' then Some(0)
    else
      var later := FirstBrace(s[1..]);
      if later.Some? then Some(later.value + 1) else None
  }

  function Parse(s: string, lit: string, done: seq<Segment>): Outcome
    decreases |s|
  {
    if s == "" then Parsed(Flushed(done, lit))
    else if s[0] == '{' then
      if |s| > 1 && s[1] == '{' then Parse(s[2..], lit + ['{'], done)
      else ParseHole(s[1..], Flushed(done, lit))
    else if s[0] == '}' then
      if |s| > 1 && s[1] == '}' then Parse(s[2..], lit + ['}'], done) else Failed(StrayClose)
    else Parse(s[1..], lit + [s[0]], done)
  }

  /** Behind an opening brace that is not doubled. */
  function ParseHole(s: string, done: seq<Segment>): Outcome
    decreases |s|
  {
    var brace := FirstBrace(s);
    if brace.None? then Failed(Unterminated)
    else if s[brace.value] == '{' then Failed(NestedOpen)
    else
      var expr := Trim(s[..brace.value]);
      if expr == "" then Failed(EmptyHole) else Parse(s[brace.value + 1..], "", done + [Hole(expr)])
  }

  // ---------- The parser ----------

  lemma Cut(s: string, i: nat, n: nat)
    requires i + n <= |s|
    ensures s[i..][n..] == s[i + n..] && s[i..][..n] == s[i..i + n]
    ensures i < |s| ==> s[i] == s[i..][0]
    ensures i + 1 < |s| ==> s[i + 1] == s[i..][1]
  {
  }

  method ParseTemplate(tmpl: string) returns (r: Outcome)
    ensures r == Parse(tmpl, "", [])
  {
    var out: seq<Segment> := [];
    var lit, i := "", 0;
    var error: Option<Error> := None;
    assert tmpl[0..] == tmpl;
    while i < |tmpl| && error.None?
      invariant i <= |tmpl|
      invariant error.None? ==> Parse(tmpl[i..], lit, out) == Parse(tmpl, "", [])
      invariant error.Some? ==> Parse(tmpl, "", []) == Failed(error.value)
      decreases |tmpl| - i, error.None?
    {
      i, lit, out, error := ParseOne(tmpl, i, lit, out);
    }
    if error.Some? {
      r := Failed(error.value);
    } else {
      r := Parsed(Flushed(out, lit));
    }
  }

  method ParseOne(tmpl: string, i: nat, lit0: string, out0: seq<Segment>)
    returns (next: nat, lit: string, out: seq<Segment>, error: Option<Error>)
    requires i < |tmpl|
    ensures i < next <= |tmpl|
    ensures error.None? ==> Parse(tmpl[next..], lit, out) == Parse(tmpl[i..], lit0, out0)
    ensures error.Some? ==> Parse(tmpl[i..], lit0, out0) == Failed(error.value)
  {
    hide ParseHole, Flushed;
    lit, out, error, next := lit0, out0, None, i + 1;
    var c := tmpl[i];
    Cut(tmpl, i, 1);
    if c == '{' || c == '}' {
      if i + 1 < |tmpl| && tmpl[i + 1] == c {
        Cut(tmpl, i, 2);
        lit := lit + [c];
        next := i + 2;
      } else if c == '{' {
        next, out, error := ParseOneHole(tmpl, i + 1, Flushed(out, lit));
        lit := "";
      } else {
        error := Some(StrayClose);
      }
    } else {
      lit := lit + [c];
    }
  }

  method ParseOneHole(tmpl: string, start: nat, out0: seq<Segment>) returns (next: nat, out: seq<Segment>, error: Option<Error>)
    requires start <= |tmpl|
    ensures start <= next <= |tmpl|
    ensures error.None? ==> Parse(tmpl[next..], "", out) == ParseHole(tmpl[start..], out0)
    ensures error.Some? ==> ParseHole(tmpl[start..], out0) == Failed(error.value)
  {
    hide Trim, Parse, FirstBrace;
    next, out, error := start, out0, None;
    var j := FindBrace(tmpl, start);
    if j == |tmpl| {
      error := Some(Unterminated);
      return;
    }
    Cut(tmpl, start, j - start);
    Cut(tmpl, start, j - start + 1);
    if tmpl[j] == '{' {
      error := Some(NestedOpen);
    } else {
      var text := Trim(tmpl[start..j]);
      if text == "" {
        error := Some(EmptyHole);
      } else {
        out := out + [Hole(text)];
        next := j + 1;
      }
    }
  }

  method FindBrace(tmpl: string, start: nat) returns (j: nat)
    requires start <= |tmpl|
    ensures start <= j <= |tmpl|
    ensures FirstBrace(tmpl[start..]) == if j < |tmpl| then Some(j - start) else None
    ensures j < |tmpl| ==> tmpl[start..][j - start] == tmpl[j]
  {
    j := start;
    while j < |tmpl| && tmpl[j] != '}' && tmpl[j] != '{'
      invariant start <= j <= |tmpl|
      invariant var b, whole := FirstBrace(tmpl[j..]), FirstBrace(tmpl[start..]);
                whole == if b.Some? then Some(j - start + b.value) else None
    {
      Cut(tmpl, j, 1);
      j := j + 1;
    }
    if j < |tmpl| { Cut(tmpl, j, 0); }
  }

  // ---------- Printing ----------

  /** A segment as it is written: blanks around an expression do not count. */
  datatype Piece = Text(text: string) | Slot(pre: string, expr: string, post: string)

  function Doubled(s: string): string {
    if s == "" then "" else (if s[0] == '{' then "{{" else if s[0] == '}' then "}}" else [s[0]]) + Doubled(s[1..])
  }

  function Print(ps: seq<Piece>): string {
    if ps == [] then ""
    else (match ps[0]
          case Text(text) => Doubled(text)
          case Slot(pre, expr, post) => ['{'] + ((pre + expr + post) + ['}'])) + Print(ps[1..])
  }

  function Meaning(p: Piece): Segment {
    match p
    case Text(text) => Literal(text)
    case Slot(_, expr, _) => Hole(expr)
  }

  function Meanings(ps: seq<Piece>): seq<Segment> {
    if ps == [] then [] else [Meaning(ps[0])] + Meanings(ps[1..])
  }

  predicate Blanks(s: string) { s == "" || (IsBlank(s[0]) && Blanks(s[1..])) }

  predicate Trimmed(s: string) { s != "" && !IsBlank(s[0]) && !IsBlank(s[|s| - 1]) }

  predicate NoBrace(s: string) { s == "" || (s[0] != '{' && s[0] != '}' && NoBrace(s[1..])) }

  predicate PieceOk(p: Piece) {
    match p
    case Text(text) => text != ""
    case Slot(pre, expr, post) => Blanks(pre) && Blanks(post) && Trimmed(expr) && NoBrace(expr)
  }

  /** Literals are not empty and never side by side. */
  predicate Normal(ps: seq<Piece>) {
    ps == [] || (PieceOk(ps[0]) && Normal(ps[1..]) && (ps[0].Text? && |ps| > 1 ==> ps[1].Slot?))
  }
}
