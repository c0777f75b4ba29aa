/** The streaming hasher. */
module Sha256Stream {
  // A buffer filled by updates of any size, against the one-shot hash of it all.

  import opened SecureHash

  // ---------- One block, in place ----------

  function StateOf(s: seq<Word>): Vars
    requires |s| == 8
  {
    Vars(s[0], s[1], s[2], s[3], s[4], s[5], s[6], s[7])
  }

  /** The message schedule of a block, filled left to right. */
  method ExpandBlock(block: array<Byte>) returns (w: array<Word>)
    requires block.Length == 64
    ensures fresh(w) && w.Length == 64
    ensures forall t :: 0 <= t < 64 ==> w[t] == Schedule(block[..], t)
  {
    hide Add, SmallSigma0, SmallSigma1, WordAt, Schedule;
    w := new Word[64];
    ghost var text := block[..];
    for i := 0 to 16
      invariant block[..] == text && forall t :: 0 <= t < i ==> w[t] == Schedule(text, t)
    {
      FirstWords(text, i);
      w[i] := WordAt(block[..], i);
    }
    for i := 16 to 64
      invariant block[..] == text && forall t :: 0 <= t < i ==> w[t] == Schedule(text, t)
    {
      var s0 := SmallSigma0(w[i - 15]);
      var s1 := SmallSigma1(w[i - 2]);
      LaterWords(text, i);
      AddReorders(w[i - 16], s0, w[i - 7], s1);
      w[i] := Add(Add(Add(w[i - 16], s0), w[i - 7]), s1);
    }
  }

  lemma FirstWords(block: seq<Byte>, t: nat)
    requires |block| == 64 && t < 16
    ensures Schedule(block, t) == WordAt(block, t)
  {
  }

  lemma LaterWords(block: seq<Byte>, t: nat)
    requires |block| == 64 && t >= 16
    ensures Schedule(block, t) ==
            Add(Add(Add(SmallSigma1(Schedule(block, t - 2)), Schedule(block, t - 7)), SmallSigma0(Schedule(block, t - 15))),
                Schedule(block, t - 16))
  {
  }

  method CompressBlock(state: array<Word>, block: array<Byte>)
    requires state.Length == 8 && block.Length == 64
    modifies state
    ensures StateOf(state[..]) == Compress(StateOf(old(state[..])), block[..])
  {
    hide Add, BigSigma0, BigSigma1, Ch, Maj, K, Schedule;
    var w := ExpandBlock(block);
    var a, b, c, d := state[0], state[1], state[2], state[3];
    var e, f, g, h := state[4], state[5], state[6], state[7];
    ghost var start := Vars(a, b, c, d, e, f, g, h);
    for i := 0 to 64
      invariant Vars(a, b, c, d, e, f, g, h) == Rounds(start, block[..], i)
    {
      var temp1 := Add(Add(Add(Add(h, BigSigma1(e)), Ch(e, f, g)), K(i)), w[i]);
      var temp2 := Add(BigSigma0(a), Maj(a, b, c));
      h := g;
      g := f;
      f := e;
      e := Add(d, temp1);
      d := c;
      c := b;
      b := a;
      a := Add(temp1, temp2);
    }
    state[0], state[1], state[2], state[3] := Add(a, state[0]), Add(b, state[1]), Add(c, state[2]), Add(d, state[3]);
    state[4], state[5], state[6], state[7] := Add(e, state[4]), Add(f, state[5]), Add(g, state[6]), Add(h, state[7]);
  }

  // ---------- Whole blocks and the tail ----------

  /** The part of a message that fills whole blocks. */
  function Whole(message: seq<Byte>): (s: seq<Byte>)
    ensures |s| % 64 == 0
  {
    message[..|message| - |message| % 64]
  }

  function Tail(message: seq<Byte>): seq<Byte> {
    message[|message| - |message| % 64..]
  }

  lemma AbsorbBlock(text: seq<Byte>, block: seq<Byte>)
    requires |text| % 64 == 0 && |block| == 64
    ensures |text + block| % 64 == 0 && Absorb(text + block) == Compress(Absorb(text), block)
  {
    assert (text + block)[..|text + block| - 64] == text && (text + block)[|text + block| - 64..] == block;
  }

  /** Bytes that still fit beside the tail leave the whole blocks alone; exactly filling it makes one
      more block. */
  lemma Grows(message: seq<Byte>, data: seq<Byte>)
    requires |Tail(message)| + |data| <= 64 && data != []
    ensures |Tail(message)| + |data| < 64 ==>
            Whole(message + data) == Whole(message) && Tail(message + data) == Tail(message) + data
    ensures |Tail(message)| + |data| == 64 ==>
            Whole(message + data) == Whole(message) + (Tail(message) + data) && Tail(message + data) == []
  {
    var t := |message| % 64;
    assert message == Whole(message) + Tail(message);
    if t + |data| < 64 {
      assert |message + data| % 64 == t + |data|;
    } else {
      assert |message + data| % 64 == 0;
    }
  }

  /** Unsigned sums wrap alike whether their parts have wrapped or not. */
  lemma WrapsOnce(a: nat, b: nat)
    ensures (a % TWO64 + b % TWO64) % TWO64 == (a + b) % TWO64
  {
  }

  lemma Bounded(message: seq<Byte>)
    ensures |Tail(message)| < 64 && |Whole(message)| % 64 == 0
  {
  }

  /** The padding completes the tail to one block, or to two when the length does not fit beside it. */
  lemma PaddedInBlocks(message: seq<Byte>, bits: nat)
    ensures var marked := Tail(message) + [0x80];
            Padded(message, bits) ==
            if |marked| <= 56 then Whole(message) + (marked + Zeros(56 - |marked|) + BigEndian(bits, 8))
            else Whole(message) + (marked + Zeros(64 - |marked|)) + (Zeros(56) + BigEndian(bits, 8))
  {
    assert message == Whole(message) + Tail(message);
    var marked := Tail(message) + [0x80];
    if |marked| > 56 {
      assert Zeros(ZeroCount(|message|)) == Zeros(64 - |marked|) + Zeros(56);
    }
  }

  class Sha256 {
    const state: array<Word>
    const buffer: array<Byte>
    var bufferLen: nat
    var totalBits: nat            // unsigned 64-bit, so modulo 2^64
    var finalized: bool
    ghost var message: seq<Byte>  // everything fed in before the digest was asked for

    /** Whole blocks are absorbed, the rest is in the buffer. */
    ghost predicate Holds(text: seq<Byte>)
      reads this`bufferLen, state, buffer
    {
      && state.Length == 8 && buffer.Length == 64
      && bufferLen == |Tail(text)| && buffer[..bufferLen] == Tail(text)
      && StateOf(state[..]) == Absorb(Whole(text))
    }

    ghost predicate Valid()
      reads this, state, buffer
    {
      && totalBits == 8 * |message| % TWO64
      && (if finalized then state.Length == 8 && StateOf(state[..]) == HashWith(message, totalBits) else Holds(message))
    }

    constructor ()
      ensures Valid() && !finalized && message == [] && fresh(state) && fresh(buffer)
    {
      state := new Word[8](i requires 0 <= i < 8 => H0(i));
      buffer := new Byte[64](i => 0);
      bufferLen, totalBits, finalized, message := 0, 0, false, [];
      new;
      assert StateOf(state[..]) == Initial();
      assert Whole([]) == [];
    }

    method CopyIn(data: seq<Byte>)
      requires buffer.Length == 64 && bufferLen + |data| <= 64
      modifies buffer, this`bufferLen
      ensures bufferLen == old(bufferLen) + |data| && buffer[..bufferLen] == old(buffer[..bufferLen]) + data
    {
      for i := 0 to |data|
        invariant bufferLen == old(bufferLen) && buffer[..bufferLen + i] == old(buffer[..bufferLen]) + data[..i]
      {
        buffer[bufferLen + i] := data[i];
        assert buffer[..bufferLen + i + 1] == buffer[..bufferLen + i] + [data[i]];
      }
      bufferLen := bufferLen + |data|;
      assert data[..|data|] == data;
    }

    /** A full buffer is absorbed. */
    method Flush(ghost absorbed: seq<Byte>)
      requires state.Length == 8 && buffer.Length == 64 && bufferLen == 64
      requires |absorbed| % 64 == 0 && StateOf(state[..]) == Absorb(absorbed)
      modifies this`bufferLen, state
      ensures bufferLen == 0 && |absorbed + buffer[..]| % 64 == 0 && StateOf(state[..]) == Absorb(absorbed + buffer[..])
    {
      hide Compress, Absorb, StateOf;
      AbsorbBlock(absorbed, buffer[..]);
      CompressBlock(state, buffer);
      bufferLen := 0;
    }

    /** Feeds as much of `data` as the buffer takes. */
    method Take(data: seq<Byte>, ghost text: seq<Byte>) returns (take: nat)
      requires Holds(text) && data != []
      modifies this`bufferLen, state, buffer
      ensures 0 < take <= |data| && Holds(text + data[..take])
    {
      hide Absorb, StateOf, Whole, Tail;
      Bounded(text);
      take := 64 - bufferLen;
      if take > |data| {
        take := |data|;
      }
      Grows(text, data[..take]);
      CopyIn(data[..take]);
      if bufferLen == 64 {
        assert buffer[..] == buffer[..bufferLen];
        Flush(Whole(text));
      }
    }

    /** Feeding more data extends the message, in whatever pieces it comes; once the digest has been
        asked for, nothing happens. */
    method Update(data: seq<Byte>)
      requires Valid()
      modifies this, state, buffer
      ensures Valid() && finalized == old(finalized)
      ensures message == if finalized then old(message) else old(message) + data
      ensures finalized ==> state[..] == old(state[..])
    {
      hide Holds;
      if finalized {
        return;
      }
      WrapsOnce(8 * |message|, 8 * |data|);
      totalBits := (totalBits + |data| * 8 % TWO64) % TWO64;
      assert |message + data| == |message| + |data| && message + data[..0] == message;
      var used := 0;
      while used < |data|
        invariant used <= |data| && !finalized && message == old(message) && Holds(message + data[..used])
        invariant totalBits == 8 * |message + data| % TWO64
      {
        var take := Take(data[used..], message + data[..used]);
        assert message + data[..used] + data[used..][..take] == message + data[..used + take];
        used := used + take;
      }
      assert data[..used] == data;
      message := message + data;
    }

    /** Appends zeros up to `to`. */
    method ZeroFill(to: nat)
      requires buffer.Length == 64 && bufferLen <= to <= 64
      modifies buffer, this`bufferLen
      ensures bufferLen == to && buffer[..bufferLen] == old(buffer[..bufferLen]) + Zeros(to - old(bufferLen))
    {
      while bufferLen < to
        invariant old(bufferLen) <= bufferLen <= to
        invariant buffer[..bufferLen] == old(buffer[..bufferLen]) + Zeros(bufferLen - old(bufferLen))
      {
        buffer[bufferLen] := 0;
        bufferLen := bufferLen + 1;
        assert buffer[..bufferLen] == buffer[..bufferLen - 1] + [0];
        assert Zeros(bufferLen - old(bufferLen)) == Zeros(bufferLen - 1 - old(bufferLen)) + [0];
      }
    }

    /** Appends the length, most significant byte first. */
    method AppendLength(bits: nat)
      requires buffer.Length == 64 && bufferLen == 56 && bits < TWO64
      modifies buffer, this`bufferLen
      ensures bufferLen == 64 && buffer[..] == old(buffer[..56]) + BigEndian(bits, 8)
    {
      for i := 8 downto 0
        invariant bufferLen == 64 - i && buffer[..bufferLen] == old(buffer[..56]) + BigEndian(bits, 8)[..8 - i]
      {
        BigEndianAt(bits, 8, 7 - i);
        buffer[bufferLen] := (bits / Pow256(i) % 256) as Byte;
        bufferLen := bufferLen + 1;
        assert buffer[..bufferLen] == buffer[..bufferLen - 1] + [BigEndian(bits, 8)[7 - i]];
      }
      assert buffer[..] == buffer[..bufferLen];
    }

    method MarkEnd()
      requires buffer.Length == 64 && bufferLen < 64
      modifies buffer, this`bufferLen
      ensures bufferLen == old(bufferLen) + 1 && buffer[..bufferLen] == old(buffer[..bufferLen]) + [0x80]
    {
      buffer[bufferLen] := 0x80;
      bufferLen := bufferLen + 1;
    }

    /** Marks the end, and starts a new block when the length would not fit into this one. */
    method MakeRoom(bits: nat) returns (ghost done: seq<Byte>)
      requires Holds(message)
      modifies state, buffer, this`bufferLen
      ensures buffer.Length == 64 && state.Length == 8 && bufferLen <= 56
      ensures |done| % 64 == 0 && StateOf(state[..]) == Absorb(done)
      ensures done + (buffer[..bufferLen] + Zeros(56 - bufferLen) + BigEndian(bits, 8)) == Padded(message, bits)
    {
      hide Absorb, StateOf, Whole, Tail, Padded;
      Bounded(message);
      done := Whole(message);
      MarkEnd();
      PaddedInBlocks(message, bits);
      if bufferLen > 56 {
        ZeroFill(64);
        assert buffer[..] == buffer[..bufferLen];
        Flush(done);
        done := done + buffer[..];
        assert buffer[..bufferLen] + Zeros(56) == Zeros(56);
      }
    }

    /** Pads the message in place; then the state is its hash. */
    method Finalize()
      requires Valid() && !finalized
      modifies this, state, buffer
      ensures Valid() && finalized && message == old(message)
    {
      hide Absorb, StateOf, Padded;
      var bitLen := totalBits;
      ghost var done := MakeRoom(bitLen);
      ghost var kept := buffer[..bufferLen];
      ZeroFill(56);
      assert buffer[..56] == kept + Zeros(56 - |kept|);
      AppendLength(bitLen);
      Flush(done);
      finalized := true;
    }

    /** The digest: eight hexadecimal digits a word. Asking again gives the same one. */
    method HexDigest() returns (hex: string)
      requires Valid()
      modifies this, state, buffer
      ensures Valid() && finalized && message == old(message)
      ensures hex == Hex(HashWith(message, 8 * |message| % TWO64))
      ensures 8 * |message| < TWO64 ==> hex == Hex(Hash(message))
    {
      hide HashWith, Hex;
      if !finalized {
        Finalize();
      }
      hex := StateHex(state);
    }
  }

  // ---------- Hexadecimal ----------

  const DIGITS := "0123456789abcdef"

  function HexWord(w: nat, width: nat): (s: string)
    ensures |s| == width
  {
    if width == 0 then "" else HexWord(w / 16, width - 1) + [DIGITS[w % 16]]
  }

  function HexWords(words: seq<Word>): (s: string)
    ensures |s| == 8 * |words|
  {
    if words == [] then "" else HexWords(words[..|words| - 1]) + HexWord(words[|words| - 1] as nat, 8)
  }

  function Hex(v: Vars): string {
    HexWords([v.a, v.b, v.c, v.d, v.e, v.f, v.g, v.h])
  }

  method StateHex(state: array<Word>) returns (hex: string)
    requires state.Length == 8
    ensures hex == Hex(StateOf(state[..]))
  {
    hex := "";
    for i := 0 to 8
      invariant hex == HexWords(state[..i])
    {
      assert state[..i + 1][..i] == state[..i];
      hex := hex + HexWord(state[i] as nat, 8);
    }
    assert state[..] == [state[0], state[1], state[2], state[3], state[4], state[5], state[6], state[7]];
    assert state[..8] == state[..];
  }

  // ---------- Digests of strings and files ----------

  method Sha256Hex(data: seq<Byte>) returns (hex: string)
    requires 8 * |data| < TWO64
    ensures hex == Hex(Hash(data))
  {
    hide Hash, HashWith, Hex;
    var h := new Sha256();
    h.Update(data);
    hex := h.HexDigest();
    assert [] + data == data;
  }

  function Concat(chunks: seq<seq<Byte>>): seq<Byte> {
    if chunks == [] then [] else Concat(chunks[..|chunks| - 1]) + chunks[|chunks| - 1]
  }

  /** A file read in pieces: the digest of all of it, or nothing when the read broke off or did not
      deliver as many bytes as the file was said to hold. */
  method Sha256File(chunks: seq<seq<Byte>>, bad: bool, eof: bool, expectedBytes: nat) returns (hex: string)
    requires 8 * |Concat(chunks)| < TWO64
    ensures hex == if bad || !eof || |Concat(chunks)| != expectedBytes then "" else Hex(Hash(Concat(chunks)))
  {
    hide Hash, HashWith, Hex;
    var h := new Sha256();
    var totalBytes := 0;
    for i := 0 to |chunks|
      invariant fresh(h) && fresh(h.state) && fresh(h.buffer)
      invariant h.Valid() && !h.finalized && h.message == Concat(chunks[..i]) && totalBytes == |h.message|
    {
      assert chunks[..i + 1][..i] == chunks[..i];
      if |chunks[i]| > 0 {
        h.Update(chunks[i]);
        totalBytes := totalBytes + |chunks[i]|;
      } else {
        assert Concat(chunks[..i]) + [] == Concat(chunks[..i]);
      }
    }
    assert chunks[..|chunks|] == chunks;
    if bad || !eof || totalBytes != expectedBytes {
      return "";
    }
    hex := h.HexDigest();
  }

  // ---------- Equal digests ----------

  lemma {:induction false} HexWordIsInjective(v: nat, w: nat, width: nat)
    requires v < Pow16(width) && w < Pow16(width) && HexWord(v, width) == HexWord(w, width)
    ensures v == w
  {
    if width > 0 {
      var a, b := HexWord(v, width), HexWord(w, width);
      assert a[..width - 1] == HexWord(v / 16, width - 1) && b[..width - 1] == HexWord(w / 16, width - 1);
      assert a[width - 1] == DIGITS[v % 16] && b[width - 1] == DIGITS[w % 16];
      DigitsDiffer(v % 16, w % 16);
      HexWordIsInjective(v / 16, w / 16, width - 1);
    }
  }

  lemma DigitsDiffer(i: nat, j: nat)
    requires i < 16 && j < 16 && DIGITS[i] == DIGITS[j]
    ensures i == j
  {
  }

  function Pow16(n: nat): nat { if n == 0 then 1 else 16 * Pow16(n - 1) }

  /** Two digests read alike only when all eight words agree. */
  lemma HexIsInjective(v: Vars, w: Vars)
    requires Hex(v) == Hex(w)
    ensures v == w
  {
    var a, b := [v.a, v.b, v.c, v.d, v.e, v.f, v.g, v.h], [w.a, w.b, w.c, w.d, w.e, w.f, w.g, w.h];
    HexWordsInjective(a, b);
    assert v == StateOf(a) && w == StateOf(b);
  }

  lemma {:induction false} HexWordsInjective(a: seq<Word>, b: seq<Word>)
    requires |a| == |b| && HexWords(a) == HexWords(b)
    ensures a == b
    decreases |a|
  {
    if a != [] {
      var n := |a| - 1;
      var s, t := HexWords(a), HexWords(b);
      assert s[..8 * n] == HexWords(a[..n]) && t[..8 * n] == HexWords(b[..n]);
      assert s[8 * n..] == HexWord(a[n] as nat, 8) && t[8 * n..] == HexWord(b[n] as nat, 8);
      assert Pow16(8) == 0x1_0000_0000;
      HexWordIsInjective(a[n] as nat, b[n] as nat, 8);
      HexWordsInjective(a[..n], b[..n]);
      assert a == a[..n] + [a[n]] && b == b[..n] + [b[n]];
    }
  }

  // ---------- What the digits say ----------

  /** A text of hexadecimal digits as a number, the highest digit first. */
  function Value(s: string): nat {
    if s == "" then 0 else 16 * Value(s[..|s| - 1]) + Nibble(s[|s| - 1])
  }

  function Nibble(c: char): nat {
    if '0' <= c <= '9' then c as nat - '0' as nat else if 'a' <= c <= 'f' then c as nat - 'a' as nat + 10 else 16
  }

  lemma {:induction false} WordReads(w: nat, width: nat)
    requires w < Pow16(width)
    ensures Value(HexWord(w, width)) == w
  {
    if width > 0 {
      var s := HexWord(w, width);
      assert s[..|s| - 1] == HexWord(w / 16, width - 1) && s[|s| - 1] == DIGITS[w % 16];
      WordReads(w / 16, width - 1);
      NibbleReads(w % 16);
    }
  }

  lemma NibbleReads(n: nat)
    requires n < 16
    ensures Nibble(DIGITS[n]) == n
  {
  }

  /** The digest spells the eight words in order, each as the number it is. */
  lemma DigestReads(v: Vars, i: nat)
    requires i < 8
    ensures |Hex(v)| == 64 && Value(Hex(v)[8 * i..8 * i + 8]) == [v.a, v.b, v.c, v.d, v.e, v.f, v.g, v.h][i] as nat
  {
    var words := [v.a, v.b, v.c, v.d, v.e, v.f, v.g, v.h];
    WordsInOrder(words, i);
    assert Pow16(8) == 0x1_0000_0000;
    WordReads(words[i] as nat, 8);
  }

  lemma {:induction false} WordsInOrder(words: seq<Word>, i: nat)
    requires i < |words|
    ensures HexWords(words)[8 * i..8 * i + 8] == HexWord(words[i] as nat, 8)
    decreases |words|
  {
    var n := |words| - 1;
    var s, front := HexWords(words), HexWords(words[..n]);
    assert s == front + HexWord(words[n] as nat, 8) && |front| == 8 * n;
    if i < n {
      WordsInOrder(words[..n], i);
      assert s[8 * i..8 * i + 8] == front[8 * i..8 * i + 8];
    }
  }
}
