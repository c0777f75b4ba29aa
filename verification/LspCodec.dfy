/** File URIs and paths. */
module LspCodec {
  // Percent encoding, and which paths survive it. Strings hold bytes.

  import opened Options

  // ---------- Percent coding: sections 2.1 and 2.3 of RFC 3986 ----------

  predicate IsByte(c: char) { (c as int) < 256 }

  predicate Bytes(s: string) { s == "" || (IsByte(s[0]) && Bytes(s[1..])) }

  predicate IsAlpha(c: char) { 'A' <= c <= 'Z' || 'a' <= c <= 'z' }

  predicate IsDigit(c: char) { '0' <= c <= '9' }

  /** The unreserved set, the path separator and the drive colon. */
  predicate Verbatim(c: char) {
    IsAlpha(c) || IsDigit(c) || c == '-' || c == '.' || c == '_' || c == '~' || c == '/' || c == ':'
  }

  const HEX := "0123456789ABCDEF"

  predicate IsHex(c: char) { IsDigit(c) || 'A' <= c <= 'F' || 'a' <= c <= 'f' }

  function HexValue(c: char): (n: nat)
    requires IsHex(c)
    ensures n < 16
  {
    if IsDigit(c) then c as int - '0' as int
    else if 'A' <= c <= 'F' then c as int - 'A' as int + 10
    else c as int - 'a' as int + 10
  }

  function EncodeChar(c: char): string
    requires IsByte(c)
  {
    if Verbatim(c) then [c] else ['%', HEX[c as int / 16], HEX[c as int % 16]]
  }

  function Encode(s: string): string
    requires Bytes(s)
  {
    if s == "" then "" else EncodeChar(s[0]) + Encode(s[1..])
  }

  /** A percent sign that no two hexadecimal digits follow stands for itself. */
  function Decode(s: string): string
    decreases |s|
  {
    if s == "" then ""
    else if s[0] == '%' && |s| > 2 && IsHex(s[1]) && IsHex(s[2]) then
      [(16 * HexValue(s[1]) + HexValue(s[2])) as char] + Decode(s[3..])
    else [s[0]] + Decode(s[1..])
  }

  const PREFIX := "file://"

  /** A path in generic form that needs no current directory, and on Windows no current drive. */
  predicate IsAbsolute(path: string, windows: bool) {
    if windows then (|path| > 2 && IsAlpha(path[0]) && path[1] == ':' && path[2] == '/') || (|path| > 1 && path[..2] == "//")
    else path != "" && path[0] == '/'
  }

  /** `absolute` asks the file system, which may fail; then the path is taken as it is. */
  function Normalized(path: string, absolute: string -> Option<string>, windows: bool): string {
    if IsAbsolute(path, windows) || absolute(path).None? then path else absolute(path).value
  }

  function PathToUri(path: string, absolute: string -> Option<string>, windows: bool): string
    requires Bytes(Normalized(path, absolute, windows))
  {
    UriOf(Normalized(path, absolute, windows))
  }

  function UriOf(path: string): string
    requires Bytes(path)
  {
    var encoded := Encode(path);
    if encoded != "" && encoded[0] == '/' then PREFIX + encoded else PREFIX + ("/" + encoded)
  }

  /** Windows drops the slash in front of a drive. */
  predicate DriveLike(s: string) { |s| >= 3 && s[0] == '/' && IsAlpha(s[1]) && s[2] == ':' }

  function UriToPath(uri: string, windows: bool): string {
    if |uri| > |PREFIX| && uri[..|PREFIX|] == PREFIX then
      var decoded := Decode(uri[|PREFIX|..]);
      if windows && DriveLike(decoded) then decoded[1..] else decoded
    else uri
  }

  method EncodePath(s: string) returns (out: string)
    requires Bytes(s)
    ensures out == Encode(s)
  {
    out := "";
    var i := 0;
    while i < |s|
      invariant i <= |s| && Bytes(s[i..]) && out + Encode(s[i..]) == Encode(s)
    {
      assert s[i..][0] == s[i] && s[i..][1..] == s[i + 1..];
      assert out + (EncodeChar(s[i]) + Encode(s[i + 1..])) == (out + EncodeChar(s[i])) + Encode(s[i + 1..]);
      var c := s[i];
      out := out + if Verbatim(c) then [c] else ['%', HEX[c as int / 16], HEX[c as int % 16]];
      i := i + 1;
    }
  }

  method DecodePath(raw: string) returns (decoded: string)
    ensures decoded == Decode(raw)
  {
    decoded := "";
    var i := 0;
    assert raw[0..] == raw;
    while i < |raw|
      invariant i <= |raw| && decoded + Decode(raw[i..]) == Decode(raw)
      decreases |raw| - i
    {
      var c, k := DecodeOne(raw, i);
      assert decoded + ([c] + Decode(raw[i + k..])) == (decoded + [c]) + Decode(raw[i + k..]);
      decoded := decoded + [c];
      i := i + k;
    }
  }

  method DecodeOne(raw: string, i: nat) returns (c: char, k: nat)
    requires i < |raw|
    ensures 0 < k && i + k <= |raw| && Decode(raw[i..]) == [c] + Decode(raw[i + k..])
  {
    Rest(raw, i);
    c, k := raw[i], 1;
    if raw[i] == '%' && i + 2 < |raw| && IsHex(raw[i + 1]) && IsHex(raw[i + 2]) {
      c, k := (16 * HexValue(raw[i + 1]) + HexValue(raw[i + 2])) as char, 3;
    }
  }

  lemma Rest(s: string, i: nat)
    requires i < |s|
    ensures s[i..][0] == s[i] && s[i..][1..] == s[i + 1..]
    ensures i + 2 < |s| ==> s[i..][1] == s[i + 1] && s[i..][2] == s[i + 2] && s[i..][3..] == s[i + 3..]
  {
  }

  // ---------- Decoding undoes encoding ----------

  lemma HexDigits(n: nat)
    requires n < 16
    ensures IsHex(HEX[n]) && HexValue(HEX[n]) == n && HEX[n] != '%'
  {
  }

  lemma CharDecodes(c: char, u: string)
    requires IsByte(c)
    ensures Decode(EncodeChar(c) + u) == [c] + Decode(u)
  {
    if Verbatim(c) {
      assert ([c] + u)[1..] == u;
    } else {
      var hi, lo := c as int / 16, c as int % 16;
      HexDigits(hi);
      HexDigits(lo);
      var s := ['%', HEX[hi], HEX[lo]] + u;
      assert s[0] == '%' && s[1] == HEX[hi] && s[2] == HEX[lo] && s[3..] == u;
      assert 16 * hi + lo == c as int;
    }
  }

  lemma {:induction false} DecodingUndoesEncoding(s: string)
    requires Bytes(s)
    ensures Decode(Encode(s)) == s
  {
    if s != "" {
      CharDecodes(s[0], Encode(s[1..]));
      DecodingUndoesEncoding(s[1..]);
      assert [s[0]] + s[1..] == s;
    }
  }

  /** Only allowed characters and complete escapes. */
  predicate WellCoded(s: string)
    decreases |s|
  {
    s == "" || (Verbatim(s[0]) && WellCoded(s[1..])) ||
    (s[0] == '%' && |s| > 2 && IsHex(s[1]) && IsHex(s[2]) && WellCoded(s[3..]))
  }

  lemma {:induction false} EncodedIsWellCoded(s: string)
    requires Bytes(s)
    ensures WellCoded(Encode(s))
  {
    if s != "" {
      EncodedIsWellCoded(s[1..]);
      var c, more := s[0], Encode(s[1..]);
      if Verbatim(c) {
        assert ([c] + more)[1..] == more;
      } else {
        HexDigits(c as int / 16);
        HexDigits(c as int % 16);
        assert (EncodeChar(c) + more)[3..] == more;
      }
    }
  }

  /** A path comes back from its URI exactly when it starts with a slash and is not taken for a drive, or
      starts with a drive on Windows. */
  lemma TextsComeBack(path: string, windows: bool)
    requires Bytes(path)
    ensures UriToPath(UriOf(path), windows) == path <==>
            if path != "" && path[0] == '/' then !(windows && DriveLike(path)) else windows && DriveLike("/" + path)
  {
    DecodingUndoesEncoding(path);
    EncodedStart(path);
    if path != "" && path[0] == '/' {
      Prefixed(Encode(path));
    } else {
      Prefixed("/" + Encode(path));
      assert ("/" + Encode(path))[1..] == Encode(path);
      assert Decode("/" + Encode(path)) == "/" + path && ("/" + path)[1..] == path;
      assert |"/" + path| != |path|;
    }
  }

  /** So every path comes back in its absolute form, as long as the file system gives one. */
  lemma PathsComeBack(path: string, absolute: string -> Option<string>, windows: bool)
    requires var full := Normalized(path, absolute, windows); Bytes(full) && IsAbsolute(full, windows)
    ensures UriToPath(PathToUri(path, absolute, windows), windows) == Normalized(path, absolute, windows)
  {
    hide Decode, Encode, UriToPath, UriOf;
    TextsComeBack(Normalized(path, absolute, windows), windows);
  }

  /** Without one, a path that does not start with a slash or, on Windows, a drive comes back as another. */
  lemma UnresolvedPathsDoNot(path: string, absolute: string -> Option<string>, windows: bool)
    requires Bytes(path) && !IsAbsolute(path, windows) && absolute(path).None?
    ensures UriToPath(PathToUri(path, absolute, windows), windows) == path <==>
            windows && if path != "" && path[0] == '/' then !DriveLike(path) else DriveLike("/" + path)
  {
    TextsComeBack(path, windows);
  }

  lemma EncodedStart(path: string)
    requires Bytes(path)
    ensures path == "" <==> Encode(path) == ""
    ensures path != "" ==> (Encode(path)[0] == '/' <==> path[0] == '/')
  {
    if path != "" { assert Encode(path)[0] == EncodeChar(path[0])[0]; }
  }

  lemma Prefixed(s: string)
    requires s != ""
    ensures var uri := PREFIX + s; |uri| > |PREFIX| && uri[..|PREFIX|] == PREFIX && uri[|PREFIX|..] == s
  {
  }

  // ---------- Character by character ----------

  const UPPER: set<char> := {'A', 'B', 'C', 'D', 'E', 'F', 'G', 'H', 'I', 'J', 'K', 'L', 'M', 'N', 'O', 'P', 'Q', 'R', 'S', 'T', 'U', 'V', 'W', 'X', 'Y', 'Z'}

  const LOWER: set<char> := {'a', 'b', 'c', 'd', 'e', 'f', 'g', 'h', 'i', 'j', 'k', 'l', 'm', 'n', 'o', 'p', 'q', 'r', 's', 't', 'u', 'v', 'w', 'x', 'y', 'z'}

  const OTHERS: set<char> := {'0', '1', '2', '3', '4', '5', '6', '7', '8', '9', '-', '.', '_', '~', '/', ':'}

  /** These characters stand for themselves, all others for the two upper-case digits of their byte. */
  lemma WhatStays(c: char)
    requires IsByte(c)
    ensures EncodeChar(c) == if c in UPPER || c in LOWER || c in OTHERS then [c]
                             else ['%', "0123456789ABCDEF"[c as int / 16], "0123456789ABCDEF"[c as int % 16]]
  {
    ByTable(c);
    hide UPPER, LOWER, OTHERS, Verbatim;
  }

  lemma ByTable(c: char)
    ensures Verbatim(c) <==> c in UPPER || c in LOWER || c in OTHERS
  {
    assert c in UPPER <==> 'A' <= c <= 'Z';
    assert c in LOWER <==> 'a' <= c <= 'z';
  }

  /** The URI of a path with a slash in front is the scheme and the encoded path, whatever the file system says;
      off Windows the same goes for what the file system makes of any other path. */
  lemma UrisOfPaths(path: string, full: string, absolute: string -> Option<string>)
    requires Bytes(path) && Bytes(full) && full != "" && full[0] == '/'
    ensures path != "" && path[0] == '/' ==> PathToUri(path, absolute, false) == "file://" + Encode(path)
    ensures (path == "" || path[0] != '/') && absolute(path) == Some(full) ==> PathToUri(path, absolute, false) == "file://" + Encode(full)
    ensures (path == "" || path[0] != '/') && absolute(path) == None ==> PathToUri(path, absolute, false) == "file:///" + Encode(path)
  {
    EncodedStart(path);
    EncodedStart(full);
    assert PREFIX + ("/" + Encode(path)) == "file:///" + Encode(path);
  }

  /** On Windows a path is complete with a drive and a slash, or with two slashes. */
  lemma CompleteOnWindows(path: string)
    ensures IsAbsolute(path, true) <==>
            (|path| >= 3 && ('a' <= path[0] <= 'z' || 'A' <= path[0] <= 'Z') && path[1..3] == ":/") || (|path| >= 2 && path[0] == '/' && path[1] == '/')
  {
    if |path| >= 2 { assert path[..2] == [path[0], path[1]]; }
    if |path| >= 3 { assert path[1..3] == [path[1], path[2]]; }
  }
}
