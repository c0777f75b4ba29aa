/** Framed messages. */
module LspFraming {
  // Length-prefixed messages on a byte stream that delivers reads in pieces of any size.

  import opened Options

  const INT_MAX := 0x7FFF_FFFF

  // ---------- Numbers ----------

  function Digits(n: nat): (s: string)
    ensures s != ""
  {
    var last := [(n % 10 + '0' as int) as char];
    if n < 10 then last else Digits(n / 10) + last
  }

  predicate IsDigit(c: char) { '0' <= c <= '9' }

  predicate IsSpace(c: char) { c == ' ' || c == '\t' || c == '\n' || c == '\r' || c == '\U{000B}' || c == '\U{000C}' }

  /** The digits at the front of `s`, read onto `n`. */
  function ReadDigits(s: string, n: nat): nat {
    if s != "" && IsDigit(s[0]) then ReadDigits(s[1..], 10 * n + (s[0] as int - '0' as int)) else n
  }

  /** std::stoi: leading white space, a sign, then as many digits as there are; at least one, and a value
      that fits. */
  function Stoi(s: string): Option<int> {
    if s != "" && IsSpace(s[0]) then Stoi(s[1..])
    else
      var minus := s != "" && s[0] == '-';
      var t := if s != "" && (s[0] == '-' || s[0] == '+') then s[1..] else s;
      if t == "" || !IsDigit(t[0]) then None
      else
        var n: int := ReadDigits(t, 0);
        if minus then (if n <= INT_MAX + 1 then Some(0 - n) else None) else if n <= INT_MAX then Some(n) else None
  }

  lemma {:induction false} DigitsReadOnto(n: nat, u: string)
    ensures IsDigit(Digits(n)[0]) && ReadDigits(Digits(n) + u, 0) == ReadDigits(u, n)
    decreases n
  {
    var c := (n % 10 + '0' as int) as char;
    if n < 10 {
      assert ([c] + u)[1..] == u;
    } else {
      DigitsReadOnto(n / 10, [c] + u);
      assert Digits(n) + u == Digits(n / 10) + ([c] + u);
      assert ([c] + u)[1..] == u;
    }
  }

  // ---------- Writing and reading one message, on the bytes there are ----------

  const HEADER := "Content-Length: "

  function Frame(body: string): string {
    HEADER + (Digits(|body|) + ("\r\n\r\n" + body))
  }

  /** A header line: it ends at the first carriage return that a line feed follows. */
  function ReadLine(s: string, line: string): Option<(string, string)>
    decreases |s|
  {
    if s == "" then None
    else if s[0] == '\r' then
      if |s| == 1 then ReadLine("", line + ['\r'])
      else if s[1] == '\n' then Some((line, s[2..]))
      else ReadLine(s[2..], line + [s[0], s[1]])
    else ReadLine(s[1..], line + [s[0]])
  }

  lemma {:induction false} LineTakes(s: string, line: string)
    ensures var r := ReadLine(s, line); r.Some? ==> |r.value.1| + 2 <= |s|
    decreases |s|
  {
    if s != "" {
      if s[0] == '\r' {
        if |s| > 1 && s[1] != '\n' { LineTakes(s[2..], line + [s[0], s[1]]); }
      } else {
        LineTakes(s[1..], line + [s[0]]);
      }
    }
  }

  /** All header lines up to an empty one; the last length given counts, and a bad one loses the
      connection. */
  function ReadHeaders(s: string, length: int): Option<(int, string)>
    decreases |s|
  {
    var r := ReadLine(s, "");
    LineTakes(s, "");
    if r.None? then None
    else if r.value.0 == "" then Some((length, r.value.1))
    else
      var line := r.value.0;
      if |line| >= |HEADER| && line[..|HEADER|] == HEADER then
        var n := Stoi(line[|HEADER|..]);
        if n.None? then None else ReadHeaders(r.value.1, n.value)
      else ReadHeaders(r.value.1, length)
  }

  /** The next body and what is left, or nothing when the connection is lost. */
  function ReadFrame(s: string): Option<(string, string)> {
    var headers := ReadHeaders(s, -1);
    if headers.None? || headers.value.0 <= 0 || |headers.value.1| < headers.value.0 then None
    else Some((headers.value.1[..headers.value.0], headers.value.1[headers.value.0..]))
  }

  // ---------- The stream ----------

  class Stream {
    var unread: string

    constructor (bytes: string)
      ensures unread == bytes
    {
      unread := bytes;
    }

    method ReadByte() returns (ch: Option<char>)
      modifies this
      ensures old(unread) == "" ==> ch.None? && unread == ""
      ensures old(unread) != "" ==> ch == Some(old(unread)[0]) && unread == old(unread)[1..]
    {
      ch := None;
      if unread != "" {
        ch := Some(unread[0]);
        unread := unread[1..];
      }
    }

    /** As many bytes as the transport likes, at least one while there are any. */
    method Read(atMost: nat) returns (chunk: string)
      requires atMost > 0
      modifies this
      ensures |chunk| <= atMost && old(unread) == chunk + unread && (chunk == "" <==> old(unread) == "")
    {
      var n: int := *;
      if n < 1 { n := 1; }
      if n > atMost { n := atMost; }
      if n > |unread| { n := |unread|; }
      chunk := unread[..n];
      unread := unread[n..];
    }
  }

  method ReadHeaderLine(s: Stream) returns (line: Option<string>)
    modifies s
    ensures match ReadLine(old(s.unread), "")
            case None => line.None?
            case Some(r) => line == Some(r.0) && s.unread == r.1
  {
    var text := "";
    var going := true;
    line := None;
    while going
      invariant going ==> line.None? && ReadLine(s.unread, text) == ReadLine(old(s.unread), "")
      invariant !going ==> match ReadLine(old(s.unread), "")
                           case None => line.None?
                           case Some(r) => line == Some(r.0) && s.unread == r.1
      decreases going, |s.unread|
    {
      var ch := s.ReadByte();
      if ch.None? {
        going := false;
      } else if ch.value == '\r' {
        var next := s.ReadByte();
        if next == Some('\n') {
          line := Some(text);
          going := false;
        } else {
          ghost var before := text;
          text := text + ['\r'];
          if next.Some? {
            text := text + [next.value];
            assert text == before + ['\r', next.value];
          }
        }
      } else {
        text := text + [ch.value];
      }
    }
  }

  method ReadMessage(s: Stream) returns (body: Option<string>)
    modifies s
    ensures match ReadFrame(old(s.unread))
            case None => body.None?
            case Some(r) => body == Some(r.0) && s.unread == r.1
  {
    var length := ReadHeaderLines(s);
    if length.None? || length.value <= 0 {
      return None;
    }
    body := ReadBody(s, length.value);
  }

  method ReadHeaderLines(s: Stream) returns (length: Option<int>)
    modifies s
    ensures match ReadHeaders(old(s.unread), -1)
            case None => length.None?
            case Some(r) => length == Some(r.0) && s.unread == r.1
  {
    var contentLength := -1;
    var going := true;
    length := None;
    while going
      invariant going ==> length.None? && ReadHeaders(s.unread, contentLength) == ReadHeaders(old(s.unread), -1)
      invariant !going ==> match ReadHeaders(old(s.unread), -1)
                           case None => length.None?
                           case Some(r) => length == Some(r.0) && s.unread == r.1
      decreases going, |s.unread|
    {
      LineTakes(s.unread, "");
      var line := ReadHeaderLine(s);
      if line.None? {
        going := false;
      } else if line.value == "" {
        length := Some(contentLength);
        going := false;
      } else if |line.value| >= |HEADER| && line.value[..|HEADER|] == HEADER {
        var n := Stoi(line.value[|HEADER|..]);
        if n.None? {
          going := false;
        } else {
          contentLength := n.value;
        }
      }
    }
  }

  /** The body arrives whole, however it is chopped up on the way. */
  method ReadBody(s: Stream, length: nat) returns (body: Option<string>)
    modifies s
    ensures if |old(s.unread)| < length then body.None?
            else body == Some(old(s.unread)[..length]) && s.unread == old(s.unread)[length..]
  {
    var read := "";
    while |read| < length
      invariant |read| <= length && old(s.unread) == read + s.unread
      decreases length - |read|
    {
      var chunk := s.Read(length - |read|);
      if chunk == "" {
        return None;
      }
      read := read + chunk;
    }
    body := Some(read);
  }

  // ---------- What is written is read ----------

  predicate NoReturn(s: string) { s == "" || (s[0] != '\r' && NoReturn(s[1..])) }

  lemma {:induction false} LineReads(text: string, u: string, line: string)
    requires NoReturn(text)
    ensures ReadLine(text + ("\r\n" + u), line) == Some((line + text, u))
    decreases |text|
  {
    if text == "" {
      var s := "\r\n" + u;
      assert text + s == s && s[0] == '\r' && s[1] == '\n' && s[2..] == u && line + text == line;
    } else {
      assert (text + ("\r\n" + u))[1..] == text[1..] + ("\r\n" + u);
      LineReads(text[1..], u, line + [text[0]]);
      assert line + [text[0]] + text[1..] == line + text;
    }
  }

  lemma {:induction false} DigitsHaveNoReturn(n: nat)
    ensures NoReturn(Digits(n))
    decreases n
  {
    var last := [(n % 10 + '0' as int) as char];
    assert last[1..] == "" && NoReturn(last);
    if n >= 10 {
      DigitsHaveNoReturn(n / 10);
      NoReturnJoins(Digits(n / 10), last);
    }
  }

  lemma {:induction false} NoReturnJoins(a: string, b: string)
    requires NoReturn(a) && NoReturn(b)
    ensures NoReturn(a + b)
    decreases |a|
  {
    if a == "" {
      assert a + b == b;
    } else {
      assert (a + b)[1..] == a[1..] + b;
      NoReturnJoins(a[1..], b);
    }
  }

  /** What goes out for a message. */
  lemma FrameText(body: string)
    ensures Frame(body) == "Content-Length: " + Digits(|body|) + "\r\n\r\n" + body
  {
    JoinsLeft(HEADER, Digits(|body|), "\r\n\r\n", body);
  }

  lemma JoinsLeft(a: string, b: string, c: string, d: string)
    ensures a + (b + (c + d)) == a + b + c + d
  {
  }

  lemma StoiOfDigits(n: nat)
    ensures Stoi(Digits(n)) == if n <= INT_MAX then Some(n) else None
  {
    DigitsReadOnto(n, "");
    assert Digits(n) + "" == Digits(n);
  }

  /** A message is read back from the front of any stream, if and only if its body is not empty and not too
      long for an int; otherwise the connection is lost. */
  lemma FramesAreRead(body: string, u: string)
    ensures ReadFrame(Frame(body) + u) == if 0 < |body| <= INT_MAX then Some((body, u)) else None
  {
    hide ReadHeaders, Stoi, Digits, NoReturn;
    FrameShape(body, u);
    HeadersRead(|body|, body + u);
    assert (body + u)[..|body|] == body && (body + u)[|body|..] == u;
  }

  lemma HeadersRead(n: nat, u: string)
    ensures ReadHeaders((HEADER + Digits(n)) + ("\r\n" + ("\r\n" + u)), -1) == if n <= INT_MAX then Some((n, u)) else None
  {
    hide ReadLine, Stoi, Digits, NoReturn;
    var line := HEADER + Digits(n);
    HeaderHasNoReturn();
    DigitsHaveNoReturn(n);
    NoReturnJoins(HEADER, Digits(n));
    LineReads(line, "\r\n" + u, "");
    assert "" + line == line && line[|HEADER|..] == Digits(n) && line[..|HEADER|] == HEADER && line != "";
    StoiOfDigits(n);
    EmptyLineReads(u, n);
  }

  lemma EmptyLineReads(u: string, n: int)
    ensures ReadHeaders("\r\n" + u, n) == Some((n, u))
  {
    hide ReadLine;
    NothingHasNoReturn();
    LineReads("", u, "");
    assert "" + ("\r\n" + u) == "\r\n" + u && "" + "" == "";
  }

  lemma NothingHasNoReturn()
    ensures NoReturn("")
  {
  }

  lemma HeaderHasNoReturn()
    ensures NoReturn(HEADER)
  {
    hide NoReturn;
    NoReturnAnywhere(HEADER);
  }

  lemma {:induction false} NoReturnAnywhere(s: string)
    requires forall i :: 0 <= i < |s| ==> s[i] != '\r'
    ensures NoReturn(s)
  {
    if s != "" { NoReturnAnywhere(s[1..]); }
  }

  lemma FrameShape(body: string, u: string)
    ensures Frame(body) + u == (HEADER + Digits(|body|)) + ("\r\n" + ("\r\n" + (body + u)))
  {
    hide Digits;
    Regroup(HEADER, Digits(|body|), "\r\n\r\n", body, u);
    TwoLineEnds(body + u);
  }

  lemma Regroup(a: string, b: string, c: string, d: string, u: string)
    ensures (a + (b + (c + d))) + u == (a + b) + (c + (d + u))
  {
  }

  lemma TwoLineEnds(s: string)
    ensures "\r\n\r\n" + s == "\r\n" + ("\r\n" + s)
  {
  }

  function Frames(bodies: seq<string>): string {
    if bodies == [] then "" else Frame(bodies[0]) + Frames(bodies[1..])
  }

  /** The messages read until the connection is lost. */
  function ReadAll(s: string, most: nat): seq<string>
    decreases most
  {
    var r := ReadFrame(s);
    if most == 0 || r.None? then [] else [r.value.0] + ReadAll(r.value.1, most - 1)
  }

  lemma {:induction false} AllFramesAreRead(bodies: seq<string>)
    requires forall b :: b in bodies ==> 0 < |b| <= INT_MAX
    ensures ReadAll(Frames(bodies), |bodies|) == bodies
  {
    if bodies != [] {
      assert bodies[0] in bodies;
      FramesAreRead(bodies[0], Frames(bodies[1..]));
      AllFramesAreRead(bodies[1..]);
    }
  }
}
