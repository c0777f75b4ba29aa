/** The template renderer: it works on the text itself, renders `#if` bodies as it goes, and rescans
    `#each` bodies once for every element. */
module TemplateEngine {
  import opened Options
  import opened Templates

  lemma Cut(s: string, pos: nat, n: nat)
    ensures pos + n <= |s| ==> s[pos..pos + n] == s[pos..][..n] && s[pos + n..] == s[pos..][n..]
    ensures pos < |s| ==> s[pos] == s[pos..][0]
  {
  }

  class Parser {
    const src: string
    const dump: Dumper
    var pos: nat
    var error: Option<Error>

    ghost predicate Valid()
      reads this
    {
      pos <= |src|
    }

    ghost function Left(): string
      reads this
      requires Valid()
    {
      src[pos..]
    }

    constructor (src: string, dump: Dumper)
      ensures Valid() && Left() == src && this.src == src && this.dump == dump
    {
      this.src, this.dump, pos, error := src, dump, 0, None;
    }

    /** What a call did: it failed with an error, or it went on from `before` as the outcome says. */
    ghost predicate Did(o: Outcome, ok: bool, before: string, out: string, closed: string)
      reads this
    {
      && Valid() && ok == o.Done?
      && (if ok then out == before + o.out && closed == o.closed && Left() == o.rest else error == Some(o.error))
    }

    /** The tag behind an opening `{{` that has just been consumed. */
    method TakeTag() returns (ok: bool, raw: bool, core: string)
      requires Valid()
      modifies this
      ensures Valid() && old(pos) <= pos
      ensures var tag := ReadTag(old(Left()));
              ok == tag.Tag? && (if ok then raw == tag.raw && core == tag.core && Left() == tag.rest
                                 else error == Some(UnterminatedTag(tag.delimiter)))
    {
      hide ReadUpTo;
      Cut(src, pos, 1);
      raw := pos < |src| && src[pos] == '{';
      if raw {
        pos := pos + 1;
        ok, core := TakeUpTo(true, "}}}");
      } else {
        ok, core := TakeUpTo(false, "}}");
      }
    }

    method TakeUpTo(ghost raw: bool, closeDelim: string) returns (ok: bool, core: string)
      requires Valid() && closeDelim != ""
      modifies this
      ensures Valid() && old(pos) <= pos
      ensures var tag := ReadUpTo(raw, old(Left()), closeDelim);
              ok == tag.Tag? && (if ok then core == tag.core && Left() == tag.rest
                                 else error == Some(UnterminatedTag(tag.delimiter)))
    {
      hide Find, Trim;
      var close := Find(src[pos..], closeDelim);
      core, ok := "", close.Some?;
      if ok {
        Cut(src, pos, close.value);
        Cut(src, pos, close.value + |closeDelim|);
        core := Trim(src[pos..pos + close.value]);
        pos := pos + close.value + |closeDelim|;
      } else {
        error := Some(UnterminatedTag(closeDelim));
      }
    }

    method Render(ctx: Json, before: string, atTop: bool) returns (ok: bool, out: string, closed: string)
      requires Valid()
      modifies this
      ensures Did(Templates.Render(dump, ctx, old(Left()), atTop), ok, before, out, closed) && old(pos) <= pos
      decreases |src| - pos, 1
    {
      ghost var whole := Templates.Render(dump, ctx, Left(), atTop);
      ok, out, closed := true, before, "";
      var going := true;
      while going && pos < |src|
        invariant Valid() && old(pos) <= pos
        invariant going ==> Prepend(out, Templates.Render(dump, ctx, Left(), atTop)) == Prepend(before, whole)
        invariant going ==> ok && closed == ""
        invariant !going ==> Did(whole, ok, before, out, closed)
        decreases going, |src| - pos
      {
        going, ok, out, closed := Step(ctx, out, atTop, before, whole);
      }
      if going {
        assert Left() == "";
        if !atTop {
          error := Some(UnexpectedEnd);
          ok := false;
        }
      }
    }

    /** The text up to the next tag, and that tag. */
    method Step(ctx: Json, out0: string, atTop: bool, ghost before: string, ghost whole: Outcome)
      returns (going: bool, ok: bool, out: string, closed: string)
      requires Valid() && pos < |src|
      requires Prepend(out0, Templates.Render(dump, ctx, Left(), atTop)) == Prepend(before, whole)
      modifies this
      ensures Valid() && old(pos) < pos
      ensures going ==> Prepend(out, Templates.Render(dump, ctx, Left(), atTop)) == Prepend(before, whole) && ok && closed == ""
      ensures !going ==> Did(whole, ok, before, out, closed)
      decreases |src| - pos, 0
    {
      hide Find, ReadTag, RenderTag;
      ok, closed, going := true, "", false;
      var open := Find(src[pos..], "{{");
      if open.None? {
        out := out0 + src[pos..];
        pos := |src|;
        return;
      }
      Cut(src, pos, open.value);
      Cut(src, pos, open.value + 2);
      out := out0 + src[pos..pos + open.value];
      pos := pos + open.value + 2;
      var raw, core;
      ok, raw, core := TakeTag();
      if ok {
        ghost var tagged := RenderTag(dump, ctx, Tag(raw, core, Left()), atTop);
        PrependTwice(out0, out[|out0|..], tagged);
        going, ok, out, closed := Act(ctx, out, raw, core, atTop);
      }
    }

    /** Carries out a tag. */
    method Act(ctx: Json, out0: string, raw: bool, core: string, atTop: bool) returns (going: bool, ok: bool, out: string, closed: string)
      requires Valid()
      modifies this
      ensures Valid() && old(pos) <= pos
      ensures var o := RenderTag(dump, ctx, Tag(raw, core, old(Left())), atTop);
              if going then Prepend(out, Templates.Render(dump, ctx, Left(), atTop)) == Prepend(out0, o) && ok && closed == ""
              else Did(o, ok, out0, out, closed)
      decreases |src| - pos, 4
    {
      hide Trim, Resolve, Escape, Scalar, Templates.Render, RenderBlock;
      going, ok, out, closed := true, true, out0, "";
      ghost var rest := Templates.Render(dump, ctx, Left(), atTop);
      if raw {
        var v := Resolve(ctx, core);
        var shown := if v.Some? then Scalar(dump, v.value) else "";
        PrependTwice(out0, shown, rest);
        out := out + shown;
      } else if core == "" || core[0] == '!' {
      } else if core[0] == '#' {
        ghost var block := RenderBlock(dump, ctx, Trim(core[1..]), Left());
        ok, out := Block(ctx, Trim(core[1..]), out0);
        going := ok;
        if ok { PrependTwice(out0, block.out, Templates.Render(dump, ctx, Left(), atTop)); }
      } else if core[0] == '/' {
        closed := Trim(core[1..]);
        going := false;
      } else {
        var v := Resolve(ctx, core);
        var shown := if v.Some? then Scalar(dump, v.value) else "";
        PrependTwice(out0, Escape(shown), rest);
        out := out + Escape(shown);
      }
    }

    method Block(ctx: Json, block: string, out0: string) returns (ok: bool, out: string)
      requires Valid()
      modifies this
      ensures Did(RenderBlock(dump, ctx, block, old(Left())), ok, out0, out, "") && old(pos) <= pos
      decreases |src| - pos, 3
    {
      hide FirstGap, RenderIf, RenderEach, Trim;
      var gap := FirstGap(block);
      out := out0;
      if gap.None? {
        error := Some(MissingKey(block));
        ok := false;
      } else {
        var kind, key := block[..gap.value], Trim(block[gap.value..]);
        if kind == "if" {
          ok, out := IfBlock(ctx, key, out0);
        } else if kind == "each" {
          ok, out := EachBlock(ctx, key, out0);
        } else {
          error := Some(UnknownBlock(kind));
          ok := false;
        }
      }
    }

    /** The body is rendered in any case, so that its close tag is found. */
    method IfBlock(ctx: Json, key: string, out0: string) returns (ok: bool, out: string)
      requires Valid()
      modifies this
      ensures Did(RenderIf(dump, ctx, key, old(Left())), ok, out0, out, "") && old(pos) <= pos
      decreases |src| - pos, 2
    {
      hide Templates.Render, Truthy, Resolve;
      var v := Resolve(ctx, key);
      var body, matched;
      ok, body, matched := Render(ctx, "", false);
      out := out0;
      if ok {
        if matched != key && matched != "if" {
          error := Some(MismatchedClose(key, matched));
          ok := false;
        } else if Truthy(v) {
          out := out + body;
        }
      }
    }

    /** Looks for the close tag of an `#each` block, counting blocks opened on the way. */
    method FindEachEnd(key: string) returns (ok: bool, body: string)
      requires Valid()
      modifies this
      ensures Valid() && old(pos) <= pos
      ensures match ScanBody(old(Left()), 1)
              case BadTag => !ok && error == Some(UnterminatedInEach(key))
              case NoClose => !ok && error == Some(UnclosedEach(key))
              case Close(start, rest) => ok && body == old(Left())[..start] && |body| < |old(Left())| && Left() == rest
    {
      hide ScanBody;
      ghost var whole := ScanBody(Left(), 1);
      var scan, depth, going: bool := pos, 1, true;
      ok, body := false, "";
      while going
        invariant Valid() && pos == old(pos) <= scan <= |src| && depth > 0
        invariant going ==> !ok && Shift(scan - pos, ScanBody(src[scan..], depth)) == whole
        invariant !going ==> if ok then whole == Close(|body|, src[scan..]) && body == src[pos..][..|body|] && pos < scan
                             else !whole.Close? && error == Some(if whole.BadTag? then UnterminatedInEach(key) else UnclosedEach(key))
        decreases going, |src| - scan
      {
        going, ok, scan, depth, body := ScanOne(key, scan, depth, whole);
      }
      if ok {
        pos := scan;
      }
    }

    /** The next tag behind `from`. */
    method LookAhead(from: nat) returns (found: bool, open: nat, content: string, behind: nat)
      requires Valid() && from <= |src|
      ensures match NextTag(src[from..])
              case NoTag => !found && open == |src|
              case OpenTag => !found && open < |src|
              case TagAt(o, t, rest) => found && open == from + o && content == t && from < behind <= |src| && src[behind..] == rest
    {
      hide Find, TrimLeft;
      found, content, behind := false, "", from;
      var at := Find(src[from..], "{{");
      if at.None? {
        open := |src|;
        return;
      }
      open := from + at.value;
      Cut(src, from, at.value + 2);
      var inner := open + 2;
      var close := Find(src[inner..], "}}");
      if close.Some? {
        Cut(src, inner, close.value);
        Cut(src, inner, close.value + 2);
        found, content, behind := true, TrimLeft(src[inner..inner + close.value]), inner + close.value + 2;
      }
    }

    /** One tag of the scan. */
    method ScanOne(key: string, scan0: nat, depth0: nat, ghost whole: Scan)
      returns (going: bool, ok: bool, scan: nat, depth: nat, body: string)
      requires Valid() && pos <= scan0 <= |src| && depth0 > 0
      requires Shift(scan0 - pos, ScanBody(src[scan0..], depth0)) == whole
      modifies this`error
      ensures scan0 <= scan <= |src| && depth > 0
      ensures going ==> scan0 < scan && !ok && Shift(scan - pos, ScanBody(src[scan..], depth)) == whole
      ensures !going ==> if ok then whole == Close(|body|, src[scan..]) && body == src[pos..][..|body|] && pos < scan
                         else !whole.Close? && error == Some(if whole.BadTag? then UnterminatedInEach(key) else UnclosedEach(key))
    {
      hide NextTag, Level;
      going, ok, scan, depth, body := false, false, scan0, depth0, "";
      var found, open, content, behind := LookAhead(scan0);
      if !found {
        error := Some(if open == |src| then UnclosedEach(key) else UnterminatedInEach(key));
      } else if IsClose(content) && depth0 == 1 {
        ok, scan := true, behind;
        Cut(src, pos, open - pos);
        body := src[pos..open];
      } else {
        going, scan, depth := true, behind, Level(content, depth0);
        ShiftTwice(scan0 - pos, scan - scan0, ScanBody(src[scan..], depth));
      }
    }

    /** The body is cut out of the text and rendered by a parser of its own for every element. */
    method EachBlock(ctx: Json, key: string, out0: string) returns (ok: bool, out: string)
      requires Valid()
      modifies this
      ensures Did(RenderEach(dump, ctx, key, old(Left())), ok, out0, out, "") && old(pos) <= pos
      decreases |src| - pos, 2
    {
      hide ScanBody, RenderItems, Resolve;
      var v := Resolve(ctx, key);
      var elemTpl;
      ok, elemTpl := FindEachEnd(key);
      out := out0;
      if ok && v.Some? && v.value.Array? {
        ok, out := Elements(v.value.items, key, elemTpl, out0);
      }
    }

    method Elements(items: seq<Json>, key: string, elemTpl: string, out0: string) returns (ok: bool, out: string)
      requires Valid()
      modifies this`error
      ensures var o := RenderItems(dump, items, key, elemTpl);
              ok == o.Done? && if ok then out == out0 + o.out else error == Some(o.error)
      decreases |elemTpl|, 10
    {
      hide Templates.Render;
      ok, out := true, out0;
      var i := 0;
      while ok && i < |items|
        invariant i <= |items|
        invariant ok ==> Prepend(out, RenderItems(dump, items[i..], key, elemTpl)) == Prepend(out0, RenderItems(dump, items, key, elemTpl))
        invariant !ok ==> RenderItems(dump, items, key, elemTpl).Failed? && error == Some(RenderItems(dump, items, key, elemTpl).error)
      {
        var sub := new Parser(elemTpl, dump);
        var piece, m;
        ok, piece, m := sub.Render(items[i], "", true);
        if !ok {
          error := sub.error;
        } else if m != "" {
          error := Some(StrayInEach(key));
          ok := false;
        } else {
          out := out + piece;
        }
        assert items[i..][1..] == items[i + 1..];
        i := i + 1;
      }
    }
  }

  method RenderTemplateText(tpl: string, data: Json, dump: Dumper) returns (r: Result)
    ensures r == RenderTemplate(dump, tpl, data)
  {
    var p := new Parser(tpl, dump);
    r := RenderAll(p, data);
  }

  method RenderAll(p: Parser, data: Json) returns (r: Result)
    requires p.Valid()
    modifies p
    ensures r == Verdict(Templates.Render(p.dump, data, old(p.Left()), true))
  {
    hide Templates.Render;
    ghost var o := Templates.Render(p.dump, data, p.Left(), true);
    var ok, out, matched := p.Render(data, "", true);
    if !ok {
      r := Rejected(p.error.value);
    } else if matched != "" {
      r := Rejected(StrayClose(matched));
    } else {
      assert out == "" + o.out == o.out;
      r := Rendered(out);
    }
  }
}
