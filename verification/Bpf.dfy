/** Classic BPF. */
module Bpf {
  // Classic BPF as the kernel runs it over one `seccomp_data` record: the five instruction forms the
  // filter generator emits, an interpreter, and the kernel's static acceptance test.

  /** One `sock_filter`. Jump offsets are unsigned bytes, so every jump is forward. */
  datatype Insn =
    | LdWAbs(offset: nat)               // BPF_LD  | BPF_W   | BPF_ABS
    | JeqK(k: bv32, jt: nat, jf: nat)   // BPF_JMP | BPF_JEQ | BPF_K
    | JsetK(k: bv32, jt: nat, jf: nat)  // BPF_JMP | BPF_JSET| BPF_K
    | AndK(k: bv32)                     // BPF_ALU | BPF_AND | BPF_K
    | RetK(k: bv32)                     // BPF_RET | BPF_K

  /** A 64-bit field of the record, as the two words a 32-bit load can reach (little-endian). */
  datatype Wide = Wide(lo: bv32, hi: bv32) {
    function Value(): bv64 { ((hi as bv64) << 32) | (lo as bv64) }
  }

  /** `struct seccomp_data`: nr at byte 0, arch at 4, ip at 8, the six arguments from 16 on. */
  datatype Data = Data(nr: bv32, arch: bv32, ip: Wide, args: seq<Wide>) {
    ghost predicate Valid() { |args| == 6 }
  }

  const NR_OFFSET := 0
  const ARCH_OFFSET := 4

  function ArgOffset(i: nat): nat { 16 + 8 * i }

  /** The 32-bit word at a byte offset; None is a load the kernel rejects. */
  datatype Word = None | Some(w: bv32)

  function Load(d: Data, offset: nat): Word
    requires d.Valid()
  {
    if offset == NR_OFFSET then Some(d.nr)
    else if offset == ARCH_OFFSET then Some(d.arch)
    else if offset == 8 then Some(d.ip.lo)
    else if offset == 12 then Some(d.ip.hi)
    else if 16 <= offset < 64 && offset % 8 == 0 then Some(d.args[(offset - 16) / 8].lo)
    else if 16 <= offset < 64 && offset % 8 == 4 then Some(d.args[(offset - 16) / 8].hi)
    else None
  }

  /** What one instruction does: return, skip forward with a new accumulator, or be rejected. */
  datatype Effect = Halt(k: bv32) | Skip(over: nat, a: bv32) | Bad

  function Step(insn: Insn, d: Data, a: bv32): Effect
    requires d.Valid()
  {
    match insn
    case RetK(k) => Halt(k)
    case AndK(k) => Skip(0, a & k)
    case JeqK(k, jt, jf) => Skip(if a == k then jt else jf, a)
    case JsetK(k, jt, jf) => Skip(if a & k != 0 then jt else jf, a)
    case LdWAbs(offset) => var w := Load(d, offset); if w.Some? then Skip(0, w.w) else Bad
  }

  datatype Outcome = Fault | Ret(k: bv32)

  /** Runs `p` from instruction `pc` with accumulator `a`. Leaving the program is a Fault. */
  function Run(p: seq<Insn>, d: Data, pc: nat, a: bv32): Outcome
    requires d.Valid()
    decreases if pc < |p| then |p| - pc else 0
  {
    if pc >= |p| then Fault
    else match Step(p[pc], d, a)
      case Halt(k) => Ret(k)
      case Skip(over, a') => Run(p, d, pc + 1 + over, a')
      case Bad => Fault
  }

  /** Runs the block `b` from its instruction `i` on; `Skip(over, a)` leaves it `over`
      instructions past its end. */
  function Exec(b: seq<Insn>, d: Data, i: nat, a: bv32): Effect
    requires d.Valid()
    decreases if i < |b| then |b| - i else 0
  {
    if i >= |b| then Skip(i - |b|, a)
    else match Step(b[i], d, a)
      case Halt(k) => Halt(k)
      case Skip(over, a') => Exec(b, d, i + 1 + over, a')
      case Bad => Bad
  }

  predicate At(p: seq<Insn>, pc: nat, b: seq<Insn>) {
    pc + |b| <= |p| && p[pc..pc + |b|] == b
  }

  /** A block behaves the same wherever it sits, because every jump is relative. */
  lemma {:induction false} ExecEmbeds(p: seq<Insn>, pc: nat, b: seq<Insn>, d: Data, i: nat, a: bv32)
    requires d.Valid() && At(p, pc, b)
    ensures Run(p, d, pc + i, a) ==
            match Exec(b, d, i, a)
            case Halt(k) => Ret(k)
            case Skip(over, a') => Run(p, d, pc + |b| + over, a')
            case Bad => Fault
    decreases if i < |b| then |b| - i else 0
  {
    if i < |b| {
      assert p[pc + i] == p[pc..pc + |b|][i] == b[i];
      var e := Step(b[i], d, a);
      if e.Skip? {
        ExecEmbeds(p, pc, b, d, i + 1 + e.over, e.a);
      }
    }
  }

  /** The same for a block that closes the block around it. */
  lemma {:induction false} ExecShift(b: seq<Insn>, at: nat, tail: seq<Insn>, d: Data, i: nat, a: bv32)
    requires d.Valid() && At(b, at, tail) && at + |tail| == |b|
    ensures Exec(b, d, at + i, a) == Exec(tail, d, i, a)
    decreases if i < |tail| then |tail| - i else 0
  {
    if i < |tail| {
      assert b[at + i] == b[at..at + |tail|][i] == tail[i];
      var e := Step(tail[i], d, a);
      if e.Skip? {
        ExecShift(b, at, tail, d, i + 1 + e.over, e.a);
      }
    }
  }

  lemma SplitAt(p: seq<Insn>, pc: nat, b: seq<Insn>, rest: seq<Insn>)
    requires At(p, pc, b + rest)
    ensures At(p, pc, b) && At(p, pc + |b|, rest)
  {
    var whole := p[pc..pc + |b + rest|];
    assert p[pc..pc + |b|] == whole[..|b|] == b;
    assert p[pc + |b|..pc + |b| + |rest|] == whole[|b|..] == rest;
  }

  /** A dispatch on the accumulator: each block decides one value and passes the others on. */
  datatype Case = Case(key: bv32, block: seq<Insn>, result: bv32)

  ghost predicate Decides(c: Case, d: Data, a: bv32)
    requires d.Valid()
  {
    Exec(c.block, d, 0, a) == if a == c.key then Halt(c.result) else Skip(0, a)
  }

  function Dispatch(cases: seq<Case>, default: bv32, a: bv32): bv32 {
    if cases == [] then default
    else if a == cases[0].key then cases[0].result
    else Dispatch(cases[1..], default, a)
  }

  function Blocks(cases: seq<Case>, default: bv32): seq<Insn> {
    if cases == [] then [RetK(default)] else cases[0].block + Blocks(cases[1..], default)
  }

  lemma {:induction false} BlocksDispatch(p: seq<Insn>, pc: nat, cases: seq<Case>, default: bv32, d: Data, a: bv32)
    requires d.Valid() && At(p, pc, Blocks(cases, default))
    requires forall i :: 0 <= i < |cases| ==> Decides(cases[i], d, a)
    ensures Run(p, d, pc, a) == Ret(Dispatch(cases, default, a))
    decreases |cases|
  {
    if cases == [] {
      assert p[pc] == p[pc..pc + 1][0];
    } else {
      var b := cases[0].block;
      SplitAt(p, pc, b, Blocks(cases[1..], default));
      assert Decides(cases[0], d, a);
      ExecEmbeds(p, pc, b, d, 0, a);
      BlocksDispatch(p, pc + |b|, cases[1..], default, d, a);
    }
  }

  /** The kernel's check on one instruction: byte-sized in-range jumps and loads it can satisfy. */
  predicate InsnOk(p: seq<Insn>, pc: nat)
    requires pc < |p|
  {
    match p[pc]
    case JeqK(_, jt, jf) => jt < 256 && jf < 256 && pc + 1 + jt < |p| && pc + 1 + jf < |p|
    case JsetK(_, jt, jf) => jt < 256 && jf < 256 && pc + 1 + jt < |p| && pc + 1 + jf < |p|
    case LdWAbs(offset) => offset % 4 == 0 && offset < 64
    case _ => true
  }

  const BPF_MAXINSNS := 4096

  predicate KernelAccepts(p: seq<Insn>) {
    && 0 < |p| <= BPF_MAXINSNS
    && p[|p| - 1].RetK?
    && forall pc :: 0 <= pc < |p| ==> InsnOk(p, pc)
  }

  /** What the static check buys: an accepted program ends in a return on every record. */
  lemma {:induction false} AcceptedProgramsReturn(p: seq<Insn>, d: Data, pc: nat, a: bv32)
    requires d.Valid() && KernelAccepts(p) && pc < |p|
    ensures Run(p, d, pc, a).Ret?
    decreases |p| - pc
  {
    assert InsnOk(p, pc);
    var e := Step(p[pc], d, a);
    if e.Skip? {
      AcceptedProgramsReturn(p, d, pc + 1 + e.over, e.a);
    }
  }
}
