/** The seccomp filter. */
module Seccomp {
  // The seccomp filter generator of the Linux analysis sandbox: the system-call policy as a rule table,
  // and the hand-laid BPF program that has to decide it.

  import opened Bpf

  const RET_KILL: bv32 := 0x8000_0000
  const RET_ALLOW: bv32 := 0x7FFF_0000
  const RET_ENOSYS: bv32 := 0x0005_0026   // SECCOMP_RET_ERRNO | ENOSYS
  const DENIED: bv32 := 0x0005_0001       // SECCOMP_RET_ERRNO | EPERM
  const X32_BIT: bv32 := 0x4000_0000

  // CLONE_THREAD | CLONE_VM | CLONE_SIGHAND, and those plus FS, FILES, SYSVSEM, SETTLS,
  // PARENT_SETTID, CHILD_CLEARTID and CHILD_SETTID.
  const REQUIRED_THREAD: bv32 := 0x0001_0900
  const ALLOWED_THREAD: bv32 := 0x013D_0F00

  const PR_SET_NAME: bv32 := 15
  const PR_GET_NAME: bv32 := 16
  // F_DUPFD, F_DUPFD_CLOEXEC, F_GETFD, F_SETFD, F_GETFL, F_SETFL
  const FCNTL_COMMANDS: seq<bv32> := [0, 1030, 1, 2, 3, 4]
  // ARCH_SET_GS, ARCH_SET_FS, ARCH_GET_FS, ARCH_GET_GS
  const ARCH_COMMANDS: seq<bv32> := [0x1001, 0x1002, 0x1003, 0x1004]

  const SIGNAL_CALLS: seq<string> := ["kill", "tgkill", "rt_sigqueueinfo", "rt_tgsigqueueinfo"]

  // System calls allowed outright after the argument-checked ones, in emission order.
  const ALLOWLIST: seq<string> := [
    "lseek", "getcpu", "write", "readv", "writev", "pread64", "pwrite64", "preadv", "pwritev", "preadv2",
    "pwritev2", "sendfile", "copy_file_range", "splice", "vmsplice", "tee", "open", "openat", "openat2",
    "creat", "truncate", "ftruncate", "close", "close_range", "fsync", "fdatasync", "sync_file_range",
    "stat", "lstat", "fstat", "newfstatat", "statx", "access", "faccessat", "faccessat2", "getdents",
    "getdents64", "readlink", "readlinkat", "getcwd", "chdir", "fchdir", "mkdir", "mkdirat", "rmdir",
    "unlink", "unlinkat", "rename", "renameat", "renameat2", "link", "linkat", "symlink", "symlinkat",
    "mmap", "mremap", "munmap", "mprotect", "msync", "madvise", "mlock", "munlock", "mincore", "brk",
    "rt_sigaction", "rt_sigprocmask", "rt_sigpending", "rt_sigreturn", "sigaltstack", "rt_sigtimedwait",
    "rt_sigsuspend", "nanosleep", "clock_nanosleep", "clock_gettime", "clock_getres", "gettimeofday",
    "time", "times", "getrusage", "uname", "sysinfo", "getpid", "getppid", "gettid", "getuid", "getgid",
    "geteuid", "getegid", "getresuid", "getresgid", "getgroups", "getrlimit", "setrlimit", "futex",
    "futex_waitv", "set_tid_address", "set_robust_list", "rseq", "restart_syscall", "sched_yield",
    "sched_getparam", "sched_getscheduler", "sched_get_priority_max", "sched_get_priority_min",
    "sched_getaffinity", "poll", "ppoll", "select", "pselect6", "epoll_create", "epoll_create1",
    "epoll_ctl", "epoll_wait", "epoll_pwait", "epoll_pwait2", "eventfd", "eventfd2", "pipe", "pipe2",
    "dup", "dup2", "dup3", "getrandom", "execve", "exit", "exit_group"
  ]

  /** The build target: its audit architecture, whether x32 calls can reach it, and the numbers
      of the system calls its headers define. */
  datatype Platform = Platform(arch: bv32, x32: bool, sys: map<string, bv32>) {
    /** Calls the generator names without an #ifdef. */
    predicate Complete() {
      && "clone" in sys && "prlimit64" in sys && "prctl" in sys && "fcntl" in sys
      && forall i :: 0 <= i < |SIGNAL_CALLS| ==> SIGNAL_CALLS[i] in sys
    }
  }

  // ---------- The policy ----------

  datatype Rule =
    | Fixed(nr: bv32, result: bv32)
    | ThreadClone(nr: bv32)
    | SelfSignal(nr: bv32, pid: bv32)
    | TwoValues(nr: bv32, first: bv32, second: bv32)
    | Commands(nr: bv32, arg: nat, allowed: seq<bv32>)

  /** A thread of this process and nothing else: all of REQUIRED, nothing outside ALLOWED. */
  predicate ThreadFlags(flags: bv64) {
    && flags & !(ALLOWED_THREAD as bv64) == 0
    && flags & (REQUIRED_THREAD as bv64) == REQUIRED_THREAD as bv64
  }

  /** Whether the rule lets a matching call through; `Fixed` rules do not inspect arguments. */
  predicate Permits(rule: Rule, d: Data)
    requires d.Valid() && (rule.Commands? ==> rule.arg < 6)
  {
    match rule
    case Fixed(_, result) => result == RET_ALLOW
    case ThreadClone(_) => ThreadFlags(d.args[0].Value())
    case SelfSignal(_, pid) => d.args[0].lo == pid
    case TwoValues(_, first, second) => d.args[0].lo == first || d.args[0].lo == second
    case Commands(_, arg, allowed) => d.args[arg].lo in allowed
  }

  function Decision(rule: Rule, d: Data): bv32
    requires d.Valid() && (rule.Commands? ==> rule.arg < 6)
  {
    if rule.Fixed? then rule.result else if Permits(rule, d) then RET_ALLOW else DENIED
  }

  predicate RuleOk(rule: Rule) {
    rule.Commands? ==> rule.arg < 6 && |rule.allowed| <= 6
  }

  predicate RulesOk(rules: seq<Rule>) {
    forall i :: 0 <= i < |rules| ==> RuleOk(rules[i])
  }

  /** The first rule for the call decides; a call without a rule is refused with EPERM. */
  function FirstMatch(rules: seq<Rule>, d: Data): bv32
    requires d.Valid() && RulesOk(rules)
  {
    if rules == [] then DENIED
    else if d.nr == rules[0].nr then Decision(rules[0], d)
    else FirstMatch(rules[1..], d)
  }

  function AllowRules(names: seq<string>, sys: map<string, bv32>): (rules: seq<Rule>)
    ensures |rules| <= |names|
    ensures forall i :: 0 <= i < |rules| ==> rules[i].Fixed? && rules[i].result == RET_ALLOW
  {
    if names == [] then []
    else (if names[0] in sys then [Fixed(sys[names[0]], RET_ALLOW)] else []) + AllowRules(names[1..], sys)
  }

  function SignalRules(names: seq<string>, sys: map<string, bv32>, pid: bv32): (rules: seq<Rule>)
    requires forall i :: 0 <= i < |names| ==> names[i] in sys
    ensures |rules| == |names|
    ensures forall i :: 0 <= i < |rules| ==> rules[i] == SelfSignal(sys[names[i]], pid)
  {
    seq(|names|, i requires 0 <= i < |names| => SelfSignal(sys[names[i]], pid))
  }

  /** The rules that inspect arguments or refuse outright, and the one allowance among them. */
  function InspectedRules(t: Platform, pid: bv32): (rules: seq<Rule>)
    requires t.Complete()
    ensures RulesOk(rules) && |rules| <= 10
  {
    var unavailable := if "clone3" in t.sys then [Fixed(t.sys["clone3"], RET_ENOSYS)] else [];
    unavailable + [ThreadClone(t.sys["clone"])] + SignalRules(SIGNAL_CALLS, t.sys, pid) +
    [TwoValues(t.sys["prlimit64"], pid, 0)] + [TwoValues(t.sys["prctl"], PR_SET_NAME, PR_GET_NAME)] +
    [Commands(t.sys["fcntl"], 1, FCNTL_COMMANDS)] + AllowRules(["read"], t.sys)
  }

  /** The whole table for an allowlist of call names, in the program's order. */
  function Rules(t: Platform, names: seq<string>, pid: bv32): (rules: seq<Rule>)
    requires t.Complete()
    ensures RulesOk(rules) && |rules| <= 11 + |names|
  {
    var inspected := InspectedRules(t, pid);
    var local := if "arch_prctl" in t.sys
                 then inspected + [Commands(t.sys["arch_prctl"], 0, ARCH_COMMANDS)] else inspected;
    local + AllowRules(names, t.sys)
  }

  /** A call from another architecture, or from the x32 ABI that shares the x86-64 one. */
  predicate Foreign(t: Platform, d: Data) {
    d.arch != t.arch || (t.x32 && d.nr & X32_BIT != 0)
  }

  function Policy(t: Platform, rules: seq<Rule>, d: Data): bv32
    requires RulesOk(rules) && d.Valid()
  {
    if Foreign(t, d) then RET_KILL else FirstMatch(rules, d)
  }

  function Verdict(t: Platform, names: seq<string>, pid: bv32, d: Data): bv32
    requires t.Complete() && d.Valid()
  {
    Policy(t, Rules(t, names, pid), d)
  }

  // ---------- The program ----------

  function CommandTests(allowed: seq<bv32>): (b: seq<Insn>)
    ensures |b| == 2 * |allowed|
  {
    if allowed == [] then [] else [JeqK(allowed[0], 0, 1), RetK(RET_ALLOW)] + CommandTests(allowed[1..])
  }

  function ThreadCloneBlock(nr: bv32): seq<Insn> {
    [JeqK(nr, 0, 11), LdWAbs(ArgOffset(0) + 4), JeqK(0, 1, 0), RetK(DENIED), LdWAbs(ArgOffset(0)),
     JsetK(!ALLOWED_THREAD, 0, 1), RetK(DENIED), AndK(REQUIRED_THREAD), JeqK(REQUIRED_THREAD, 1, 0),
     RetK(DENIED), RetK(RET_ALLOW), LdWAbs(NR_OFFSET)]
  }

  function SelfSignalBlock(nr: bv32, pid: bv32): seq<Insn> {
    [JeqK(nr, 0, 4), LdWAbs(ArgOffset(0)), JeqK(pid, 1, 0), RetK(DENIED), RetK(RET_ALLOW)]
  }

  /** The shape shared by prlimit64 and prctl: one of two argument values. */
  function TwoValueBlock(nr: bv32, first: bv32, second: bv32): seq<Insn> {
    [JeqK(nr, 0, 5), LdWAbs(ArgOffset(0)), JeqK(first, 2, 0), JeqK(second, 1, 0),
     RetK(DENIED), RetK(RET_ALLOW)]
  }

  function CommandsBlock(nr: bv32, arg: nat, allowed: seq<bv32>): seq<Insn> {
    [JeqK(nr, 0, 2 * |allowed| + 2), LdWAbs(ArgOffset(arg))] + CommandTests(allowed) + [RetK(DENIED)]
  }

  function Compile(rule: Rule): seq<Insn> {
    match rule
    case Fixed(nr, result) => [JeqK(nr, 0, 1), RetK(result)]
    case ThreadClone(nr) => ThreadCloneBlock(nr)
    case SelfSignal(nr, pid) => SelfSignalBlock(nr, pid)
    case TwoValues(nr, first, second) => TwoValueBlock(nr, first, second)
    case Commands(nr, arg, allowed) => CommandsBlock(nr, arg, allowed)
  }

  function CompileRules(rules: seq<Rule>): seq<Insn> {
    if rules == [] then [] else Compile(rules[0]) + CompileRules(rules[1..])
  }

  function CompileAll(rules: seq<Rule>): seq<Insn> {
    CompileRules(rules) + [RetK(DENIED)]
  }

  function Header(t: Platform): seq<Insn> {
    [LdWAbs(ARCH_OFFSET), JeqK(t.arch, 1, 0), RetK(RET_KILL), LdWAbs(NR_OFFSET)] +
    if t.x32 then [JsetK(X32_BIT, 0, 1), RetK(RET_KILL)] else []
  }

  function Program(t: Platform, names: seq<string>, pid: bv32): seq<Insn>
    requires t.Complete()
  {
    Header(t) + CompileAll(Rules(t, names, pid))
  }

  // ---------- One rule at a time ----------

  lemma WideHalves(lo: bv32, hi: bv32) returns (v: bv64)
    ensures v == Wide(lo, hi).Value() && v & 0xFFFF_FFFF == lo as bv64 && v >> 32 == hi as bv64
  {
    v := Wide(lo, hi).Value();
  }

  predicate HalvesPass(w: Wide) {
    w.hi == 0 && w.lo & !ALLOWED_THREAD == 0 && w.lo & REQUIRED_THREAD == REQUIRED_THREAD
  }

  lemma MasksByHalves(v: bv64, lo: bv32, hi: bv32)
    requires v & 0xFFFF_FFFF == lo as bv64 && v >> 32 == hi as bv64
    ensures ThreadFlags(v) <==> HalvesPass(Wide(lo, hi))
  {
  }

  /** The two 32-bit tests of the program decide the 64-bit flag word. */
  lemma ThreadFlagsByHalves(w: Wide)
    ensures ThreadFlags(w.Value()) <==> HalvesPass(w)
  {
    var v := WideHalves(w.lo, w.hi);
    MasksByHalves(v, w.lo, w.hi);
  }

  function CaseOf(rule: Rule, d: Data): Case
    requires d.Valid() && RuleOk(rule)
  {
    Case(rule.nr, Compile(rule), Decision(rule, d))
  }

  function Cases(rules: seq<Rule>, d: Data): (cases: seq<Case>)
    requires d.Valid() && RulesOk(rules)
    ensures |cases| == |rules|
    ensures forall i :: 0 <= i < |rules| ==> cases[i] == CaseOf(rules[i], d)
  {
    seq(|rules|, i requires 0 <= i < |rules| => CaseOf(rules[i], d))
  }

  lemma SelfSignalExec(nr: bv32, pid: bv32, d: Data)
    requires d.Valid()
    ensures Exec(SelfSignalBlock(nr, pid), d, 0, d.nr) ==
            if d.nr != nr then Skip(0, d.nr)
            else Halt(if d.args[0].lo == pid then RET_ALLOW else DENIED)
  {
    var b, target := SelfSignalBlock(nr, pid), d.args[0].lo;
    if d.nr == nr {
      assert Exec(b, d, 4, target) == Halt(RET_ALLOW);
      assert Exec(b, d, 1, d.nr) == Exec(b, d, 2, target);
      if target == pid {
        assert Exec(b, d, 2, target) == Exec(b, d, 4, target);
      } else {
        assert Exec(b, d, 2, target) == Exec(b, d, 3, target);
        assert Exec(b, d, 3, target) == Halt(DENIED);
      }
    }
  }

  lemma TwoValueExec(nr: bv32, first: bv32, second: bv32, d: Data)
    requires d.Valid()
    ensures Exec(TwoValueBlock(nr, first, second), d, 0, d.nr) ==
            if d.nr != nr then Skip(0, d.nr)
            else Halt(if d.args[0].lo == first || d.args[0].lo == second then RET_ALLOW else DENIED)
  {
    var b, v := TwoValueBlock(nr, first, second), d.args[0].lo;
    if d.nr == nr {
      assert Exec(b, d, 5, v) == Halt(RET_ALLOW);
      assert Exec(b, d, 1, d.nr) == Exec(b, d, 2, v);
      if v == first {
        assert Exec(b, d, 2, v) == Exec(b, d, 5, v);
      } else {
        assert Exec(b, d, 2, v) == Exec(b, d, 3, v);
        if v == second {
          assert Exec(b, d, 3, v) == Exec(b, d, 5, v);
        } else {
          assert Exec(b, d, 3, v) == Exec(b, d, 4, v) == Halt(DENIED);
        }
      }
    }
  }

  lemma ThreadLowExec(nr: bv32, d: Data, a: bv32)
    requires d.Valid()
    ensures var lo := d.args[0].lo;
            Exec(ThreadCloneBlock(nr), d, 4, a) ==
            Halt(if lo & !ALLOWED_THREAD == 0 && lo & REQUIRED_THREAD == REQUIRED_THREAD then RET_ALLOW else DENIED)
  {
    var b, lo := ThreadCloneBlock(nr), d.args[0].lo;
    var masked := lo & REQUIRED_THREAD;
    assert Exec(b, d, 10, masked) == Halt(RET_ALLOW);
    assert Exec(b, d, 4, a) == Exec(b, d, 5, lo);
    if lo & !ALLOWED_THREAD == 0 {
      assert Exec(b, d, 5, lo) == Exec(b, d, 7, lo);
      assert Exec(b, d, 7, lo) == Exec(b, d, 8, masked);
      if masked == REQUIRED_THREAD {
        assert Exec(b, d, 8, masked) == Exec(b, d, 10, masked);
      } else {
        assert Exec(b, d, 8, masked) == Exec(b, d, 9, masked) == Halt(DENIED);
      }
    } else {
      assert Exec(b, d, 5, lo) == Exec(b, d, 6, lo) == Halt(DENIED);
    }
  }

  lemma ThreadCloneExec(nr: bv32, d: Data)
    requires d.Valid()
    ensures Exec(ThreadCloneBlock(nr), d, 0, d.nr) ==
            if d.nr != nr then Skip(0, d.nr) else Halt(if HalvesPass(d.args[0]) then RET_ALLOW else DENIED)
  {
    var b, hi := ThreadCloneBlock(nr), d.args[0].hi;
    ThreadLowExec(nr, d, hi);
    if d.nr == nr {
      assert Exec(b, d, 1, d.nr) == Exec(b, d, 2, hi);
      if hi == 0 {
        assert Exec(b, d, 2, hi) == Exec(b, d, 4, hi);
      } else {
        assert Exec(b, d, 2, hi) == Exec(b, d, 3, hi);
      }
    }
  }

  lemma ThreadCloneDecides(nr: bv32, d: Data)
    requires d.Valid()
    ensures Decides(CaseOf(ThreadClone(nr), d), d, d.nr)
  {
    ThreadCloneExec(nr, d);
    ThreadFlagsByHalves(d.args[0]);
  }

  lemma {:induction false} CommandTestsExec(allowed: seq<bv32>, d: Data, a: bv32)
    requires d.Valid()
    ensures Exec(CommandTests(allowed) + [RetK(DENIED)], d, 0, a) ==
            Halt(if a in allowed then RET_ALLOW else DENIED)
    decreases |allowed|
  {
    var b := CommandTests(allowed) + [RetK(DENIED)];
    if allowed != [] {
      var rest := CommandTests(allowed[1..]) + [RetK(DENIED)];
      CommandTestsExec(allowed[1..], d, a);
      assert At(b, 2, rest);
      ExecShift(b, 2, rest, d, 0, a);
      assert Exec(b, d, 1, a) == Halt(RET_ALLOW);
    }
  }

  lemma CommandsExec(nr: bv32, arg: nat, allowed: seq<bv32>, d: Data)
    requires d.Valid() && arg < 6
    ensures Exec(CommandsBlock(nr, arg, allowed), d, 0, d.nr) ==
            if d.nr != nr then Skip(0, d.nr) else Halt(if d.args[arg].lo in allowed then RET_ALLOW else DENIED)
  {
    var b, command := CommandsBlock(nr, arg, allowed), d.args[arg].lo;
    var tests := CommandTests(allowed) + [RetK(DENIED)];
    CommandTestsExec(allowed, d, command);
    assert At(b, 2, tests);
    ExecShift(b, 2, tests, d, 0, command);
    assert Exec(b, d, 1, d.nr) == Exec(b, d, 2, command);
  }

  /** Every rule's block decides its own call and passes every other one on untouched. */
  lemma RuleDecides(rule: Rule, d: Data)
    requires d.Valid() && RuleOk(rule)
    ensures Decides(CaseOf(rule, d), d, d.nr)
  {
    match rule
    case Fixed(_, _) =>
    case ThreadClone(nr) => ThreadCloneDecides(nr, d);
    case SelfSignal(nr, pid) => SelfSignalExec(nr, pid, d);
    case TwoValues(nr, first, second) => TwoValueExec(nr, first, second, d);
    case Commands(nr, arg, allowed) => CommandsExec(nr, arg, allowed, d);
  }

  lemma {:induction false} RulesAreCases(rules: seq<Rule>, d: Data)
    requires d.Valid() && RulesOk(rules)
    ensures CompileAll(rules) == Blocks(Cases(rules, d), DENIED)
    ensures FirstMatch(rules, d) == Dispatch(Cases(rules, d), DENIED, d.nr)
    decreases |rules|
  {
    if rules != [] {
      assert Cases(rules, d)[1..] == Cases(rules[1..], d);
      assert CompileAll(rules) == Compile(rules[0]) + CompileAll(rules[1..]);
      RulesAreCases(rules[1..], d);
    }
  }

  lemma HeaderExec(t: Platform, d: Data, a: bv32)
    requires d.Valid()
    ensures Exec(Header(t), d, 0, a) ==
            if Foreign(t, d) then Halt(RET_KILL) else Skip(0, d.nr)
  {
    var h := Header(t);
    assert Exec(h, d, 0, a) == Exec(h, d, 1, d.arch);
    assert Exec(h, d, 1, d.arch) == if d.arch == t.arch then Exec(h, d, 3, d.arch) else Halt(RET_KILL);
    assert Exec(h, d, 3, d.arch) == Exec(h, d, 4, d.nr);
    if t.x32 {
      if d.nr & X32_BIT != 0 {
        assert Exec(h, d, 4, d.nr) == Exec(h, d, 5, d.nr) == Halt(RET_KILL);
      } else {
        assert Exec(h, d, 4, d.nr) == Exec(h, d, 6, d.nr);
      }
    }
  }

  lemma RulesRun(p: seq<Insn>, pc: nat, rules: seq<Rule>, d: Data)
    requires d.Valid() && RulesOk(rules) && At(p, pc, CompileAll(rules))
    ensures Run(p, d, pc, d.nr) == Ret(FirstMatch(rules, d))
  {
    var cases := Cases(rules, d);
    RulesAreCases(rules, d);
    forall i | 0 <= i < |cases| ensures Decides(cases[i], d, d.nr) {
      RuleDecides(rules[i], d);
    }
    BlocksDispatch(p, pc, cases, DENIED, d, d.nr);
  }

  lemma PolicyRuns(t: Platform, rules: seq<Rule>, d: Data, a: bv32)
    requires d.Valid() && RulesOk(rules)
    ensures Run(Header(t) + CompileAll(rules), d, 0, a) == Ret(Policy(t, rules, d))
  {
    hide CompileAll, RulesOk;
    var h, rest := Header(t), CompileAll(rules);
    var p := h + rest;
    assert p[0..|p|] == p;
    SplitAt(p, 0, h, rest);
    HeaderExec(t, d, a);
    ExecEmbeds(p, 0, h, d, 0, a);
    if !Foreign(t, d) {
      RulesRun(p, |h|, rules, d);
      assert Run(p, d, 0, a) == Run(p, d, |h|, d.nr);
    } else {
      assert Run(p, d, 0, a) == Ret(RET_KILL);
    }
  }

  /** The program decides the policy, on every system-call record. */
  lemma ProgramDecides(t: Platform, names: seq<string>, pid: bv32, d: Data, a: bv32)
    requires t.Complete() && d.Valid()
    ensures Run(Program(t, names, pid), d, 0, a) == Ret(Verdict(t, names, pid, d))
  {
    PolicyRuns(t, Rules(t, names, pid), d, a);
  }

  // ---------- The kernel's static check ----------

  /** Where control can go after an instruction: strictly inside the first `n` of the block. */
  predicate StaysBelow(insn: Insn, i: nat, n: nat) {
    match insn
    case JeqK(_, jt, jf) => i + 1 + jt < n && i + 1 + jf < n
    case JsetK(_, jt, jf) => i + 1 + jt < n && i + 1 + jf < n
    case RetK(_) => true
    case _ => i + 1 < n
  }

  predicate Encodable(insn: Insn) {
    match insn
    case JeqK(_, jt, jf) => jt < 256 && jf < 256
    case JsetK(_, jt, jf) => jt < 256 && jf < 256
    case LdWAbs(offset) => offset % 4 == 0 && offset < 64
    case _ => true
  }

  /** A block whose jumps go no further than the instruction just past it. */
  predicate Closed(b: seq<Insn>) {
    forall i :: 0 <= i < |b| ==> Encodable(b[i]) && StaysBelow(b[i], i, |b| + 1)
  }

  /** A program tail the kernel accepts, whatever its length. */
  predicate Tail(p: seq<Insn>) {
    && p != [] && p[|p| - 1].RetK?
    && forall pc :: 0 <= pc < |p| ==> InsnOk(p, pc)
  }

  lemma ClosedThenTail(b: seq<Insn>, p: seq<Insn>)
    requires Closed(b) && Tail(p)
    ensures Tail(b + p)
  {
    forall pc | 0 <= pc < |b + p| ensures InsnOk(b + p, pc) {
      if pc >= |b| {
        assert (b + p)[pc] == p[pc - |b|] && InsnOk(p, pc - |b|);
      } else {
        assert (b + p)[pc] == b[pc];
      }
    }
  }

  lemma CommandTestsClosed(allowed: seq<bv32>)
    ensures Closed(CommandTests(allowed))
  {
    if allowed != [] {
      CommandTestsClosed(allowed[1..]);
      var rest := CommandTests(allowed[1..]);
      var b := CommandTests(allowed);
      forall i | 0 <= i < |b| ensures Encodable(b[i]) && StaysBelow(b[i], i, |b| + 1) {
        if i >= 2 {
          assert b[i] == rest[i - 2];
        }
      }
    }
  }

  lemma CompileClosed(rule: Rule)
    requires RuleOk(rule)
    ensures Closed(Compile(rule)) && |Compile(rule)| <= 15
  {
    if rule.Commands? {
      CommandsClosed(rule);
    }
  }

  lemma CommandsClosed(rule: Rule)
    requires RuleOk(rule) && rule.Commands?
    ensures Closed(Compile(rule)) && |Compile(rule)| <= 15
  {
    var tests, b := CommandTests(rule.allowed), Compile(rule);
    CommandTestsClosed(rule.allowed);
    forall i | 2 <= i < 2 + |tests| ensures b[i] == tests[i - 2] {}
  }

  lemma {:induction false} CompileAllTail(rules: seq<Rule>)
    requires RulesOk(rules)
    ensures Tail(CompileAll(rules)) && |CompileAll(rules)| <= 15 * |rules| + 1
    decreases |rules|
  {
    if rules == [] {
      assert InsnOk([RetK(DENIED)], 0);
    } else {
      CompileClosed(rules[0]);
      CompileAllTail(rules[1..]);
      assert CompileAll(rules) == Compile(rules[0]) + CompileAll(rules[1..]);
      ClosedThenTail(Compile(rules[0]), CompileAll(rules[1..]));
    }
  }

  /** The kernel takes the program: every jump is forward, byte-sized and in bounds, every load is
      one it can make, and the last instruction returns. */
  lemma ProgramAccepted(t: Platform, names: seq<string>, pid: bv32)
    requires t.Complete() && |names| <= 250
    ensures KernelAccepts(Program(t, names, pid))
  {
    CompileAllTail(Rules(t, names, pid));
    ClosedThenTail(Header(t), CompileAll(Rules(t, names, pid)));
  }

  // ---------- Consequences ----------

  lemma StepStaysBelow(insn: Insn, d: Data, a: bv32, i: nat, n: nat)
    requires d.Valid() && StaysBelow(insn, i, n) && Step(insn, d, a).Skip?
    ensures i + 1 + Step(insn, d, a).over < n
  {
  }

  /** A run that keeps inside a common prefix does not see what follows it. */
  lemma {:induction false} PrefixDecides(b: seq<Insn>, c: seq<Insn>, n: nat, d: Data, i: nat, a: bv32)
    requires d.Valid() && n <= |b| && n <= |c| && b[..n] == c[..n] && i < n
    requires forall j :: i <= j < n ==> StaysBelow(b[j], j, n)
    ensures Exec(b, d, i, a) == Exec(c, d, i, a)
    decreases n - i
  {
    hide Step;
    assert b[i] == b[..n][i] == c[..n][i] == c[i];
    var e := Step(b[i], d, a);
    if e.Skip? {
      StepStaysBelow(b[i], d, a, i, n);
      PrefixDecides(b, c, n, d, i + 1 + e.over, e.a);
    }
  }

  /** The reload after the clone block is dead code: the failed number test jumps past it, so the
      accumulator it would restore is never lost. Any instruction may stand in its place. */
  lemma CloneReloadIsDead(nr: bv32, insn: Insn, d: Data)
    requires d.Valid()
    ensures var b := ThreadCloneBlock(nr);
            b[11] == LdWAbs(NR_OFFSET) && Exec(b[11 := insn], d, 0, d.nr) == Exec(b, d, 0, d.nr)
  {
    var b := ThreadCloneBlock(nr);
    var c := b[11 := insn];
    if d.nr == nr {
      PrefixDecides(b, c, 11, d, 1, d.nr);
    } else {
      SkipsClone(b, nr, d);
      SkipsClone(c, nr, d);
    }
  }

  lemma SkipsClone(b: seq<Insn>, nr: bv32, d: Data)
    requires d.Valid() && |b| == 12 && b[0] == JeqK(nr, 0, 11) && d.nr != nr
    ensures Exec(b, d, 0, d.nr) == Skip(0, d.nr)
  {
    assert Exec(b, d, 0, d.nr) == Exec(b, d, 12, d.nr);
  }

  /** A call runs exactly when it comes from the expected ABI and the first rule that names it
      permits its arguments. */
  lemma AllowedExactly(t: Platform, names: seq<string>, pid: bv32, d: Data)
    requires t.Complete() && d.Valid()
    ensures Run(Program(t, names, pid), d, 0, 0) == Ret(RET_ALLOW) <==>
            !Foreign(t, d) &&
            exists i :: 0 <= i < |Rules(t, names, pid)| && FirstFor(Rules(t, names, pid), i, d.nr) && Permits(Rules(t, names, pid)[i], d)
  {
    ProgramDecides(t, names, pid, d, 0);
    FirstMatchPermits(Rules(t, names, pid), d);
  }

  ghost predicate FirstFor(rules: seq<Rule>, i: nat, nr: bv32)
    requires i < |rules|
  {
    rules[i].nr == nr && forall j :: 0 <= j < i ==> rules[j].nr != nr
  }

  lemma {:induction false} FirstMatchPermits(rules: seq<Rule>, d: Data)
    requires d.Valid() && RulesOk(rules)
    ensures FirstMatch(rules, d) == RET_ALLOW <==>
            exists i :: 0 <= i < |rules| && FirstFor(rules, i, d.nr) && Permits(rules[i], d)
    decreases |rules|
  {
    if rules != [] {
      var rest := rules[1..];
      if d.nr == rules[0].nr {
        assert FirstFor(rules, 0, d.nr);
      } else {
        FirstMatchPermits(rest, d);
        forall i | 0 < i < |rules|
          ensures FirstFor(rules, i, d.nr) <==> FirstFor(rest, i - 1, d.nr)
        {
          assert forall j :: 0 < j < i ==> rules[j] == rest[j - 1];
          if FirstFor(rules, i, d.nr) {
            assert forall j :: 0 <= j < i - 1 ==> rest[j] == rules[j + 1];
          }
        }
        forall i | 0 <= i < |rest| && FirstFor(rest, i, d.nr) && Permits(rest[i], d)
          ensures FirstFor(rules, i + 1, d.nr) && Permits(rules[i + 1], d)
        {
          assert FirstFor(rules, i + 1, d.nr) <==> FirstFor(rest, i, d.nr);
        }
      }
    }
  }

  // ---------- The generator ----------

  lemma {:induction false} CompileSnoc(rules: seq<Rule>, rule: Rule)
    ensures CompileRules(rules + [rule]) == CompileRules(rules) + Compile(rule)
    decreases |rules|
  {
    var all := rules + [rule];
    if rules == [] {
      assert CompileRules(all[1..]) == [];
    } else {
      assert all[1..] == rules[1..] + [rule];
      CompileSnoc(rules[1..], rule);
    }
  }

  lemma Reassociate(h: seq<Insn>, rules: seq<Insn>, block: seq<Insn>)
    ensures h + (rules + block) + [] == h + rules + block
  {
  }

  /** The filter vector, with the lambdas that append to it. Ghost state splits it into the header,
      the compiled `rules` emitted so far, and the `open` part of the block under construction. */
  class FilterBuilder {
    const t: Platform
    const pid: bv32
    ghost const header: seq<Insn>
    var filters: seq<Insn>
    ghost var rules: seq<Rule>
    ghost var open: seq<Insn>

    ghost predicate Valid()
      reads this
    {
      filters == header + CompileRules(rules) + open
    }

    constructor (t: Platform, pid: bv32)
      ensures Valid() && rules == [] && open == []
      ensures this.t == t && this.pid == pid && header == Header(t)
    {
      this.t, this.pid, rules, open, header := t, pid, [], [], Header(t);
      filters := [LdWAbs(ARCH_OFFSET), JeqK(t.arch, 1, 0), RetK(RET_KILL), LdWAbs(NR_OFFSET)] +
                 if t.x32 then [JsetK(X32_BIT, 0, 1), RetK(RET_KILL)] else [];
    }

    /** A run of `statement` and `jump` calls: one push_back each. */
    method Emit(insns: seq<Insn>)
      requires Valid()
      modifies this`filters, this`open
      ensures Valid() && open == old(open) + insns
    {
      for i := 0 to |insns|
        invariant Valid() && open == old(open) + insns[..i]
      {
        filters, open := filters + [insns[i]], open + [insns[i]];
      }
    }

    /** Books the block that has just been completed. */
    ghost method Close(rule: Rule)
      requires Valid() && open == Compile(rule)
      modifies this`rules, this`open
      ensures Valid() && rules == old(rules) + [rule] && open == []
    {
      CompileSnoc(rules, rule);
      Reassociate(header, CompileRules(rules), open);
      rules, open := rules + [rule], [];
    }

    method Decide(call: bv32, result: bv32)
      requires Valid() && open == []
      modifies this
      ensures Valid() && open == [] && rules == old(rules) + [Fixed(call, result)]
    {
      Emit([JeqK(call, 0, 1), RetK(result)]);
      Close(Fixed(call, result));
    }

    method AllowDefined(names: seq<string>)
      requires Valid() && open == []
      modifies this
      ensures Valid() && open == [] && rules == old(rules) + AllowRules(names, t.sys)
    {
      hide CompileRules;
      for i := 0 to |names|
        invariant Valid() && open == []
        invariant rules + AllowRules(names[i..], t.sys) == old(rules) + AllowRules(names, t.sys)
      {
        assert names[i..][1..] == names[i + 1..];
        if names[i] in t.sys {
          Decide(t.sys[names[i]], RET_ALLOW);
        }
      }
    }

    method CheckThreadClone(call: bv32)
      requires Valid() && open == []
      modifies this
      ensures Valid() && open == [] && rules == old(rules) + [ThreadClone(call)]
    {
      Emit([JeqK(call, 0, 11), LdWAbs(ArgOffset(0) + 4), JeqK(0, 1, 0), RetK(DENIED), LdWAbs(ArgOffset(0)),
            JsetK(!ALLOWED_THREAD, 0, 1), RetK(DENIED), AndK(REQUIRED_THREAD), JeqK(REQUIRED_THREAD, 1, 0),
            RetK(DENIED), RetK(RET_ALLOW), LdWAbs(NR_OFFSET)]);
      Close(ThreadClone(call));
    }

    method CheckSignals(names: seq<string>)
      requires Valid() && open == [] && forall i :: 0 <= i < |names| ==> names[i] in t.sys
      modifies this
      ensures Valid() && open == [] && rules == old(rules) + SignalRules(names, t.sys, pid)
    {
      hide CompileRules;
      for i := 0 to |names|
        invariant Valid() && open == []
        invariant rules == old(rules) + SignalRules(names, t.sys, pid)[..i]
      {
        CheckSelfSignal(t.sys[names[i]]);
      }
    }

    method CheckSelfSignal(call: bv32)
      requires Valid() && open == []
      modifies this
      ensures Valid() && open == [] && rules == old(rules) + [SelfSignal(call, pid)]
    {
      Emit([JeqK(call, 0, 4), LdWAbs(ArgOffset(0)), JeqK(pid, 1, 0), RetK(DENIED), RetK(RET_ALLOW)]);
      Close(SelfSignal(call, pid));
    }

    method CheckTwoValues(call: bv32, first: bv32, second: bv32)
      requires Valid() && open == []
      modifies this
      ensures Valid() && open == [] && rules == old(rules) + [TwoValues(call, first, second)]
    {
      Emit([JeqK(call, 0, 5), LdWAbs(ArgOffset(0)), JeqK(first, 2, 0), JeqK(second, 1, 0),
            RetK(DENIED), RetK(RET_ALLOW)]);
      Close(TwoValues(call, first, second));
    }

    /** `skip` is the hand-counted jump past the block: 14 for fcntl, 10 for arch_prctl. */
    method CheckCommands(call: bv32, skip: nat, arg: nat, commands: seq<bv32>)
      requires Valid() && open == [] && skip == 2 * |commands| + 2
      modifies this
      ensures Valid() && open == [] && rules == old(rules) + [Commands(call, arg, commands)]
    {
      Emit([JeqK(call, 0, skip), LdWAbs(ArgOffset(arg))]);
      for i := 0 to |commands|
        invariant Valid() && rules == old(rules)
        invariant open + CommandTests(commands[i..]) ==
                  [JeqK(call, 0, skip), LdWAbs(ArgOffset(arg))] + CommandTests(commands)
      {
        assert commands[i..][1..] == commands[i + 1..];
        Emit([JeqK(commands[i], 0, 1), RetK(RET_ALLOW)]);
      }
      Emit([RetK(DENIED)]);
      Close(Commands(call, arg, commands));
    }

    method EmitInspected()
      requires Valid() && open == [] && rules == [] && t.Complete()
      modifies this
      ensures Valid() && open == [] && rules == InspectedRules(t, pid)
    {
      hide CompileRules, AllowRules, SignalRules;
      if "clone3" in t.sys {
        Decide(t.sys["clone3"], RET_ENOSYS);
      }
      CheckThreadClone(t.sys["clone"]);
      CheckSignals(SIGNAL_CALLS);
      CheckTwoValues(t.sys["prlimit64"], pid, 0);
      CheckTwoValues(t.sys["prctl"], PR_SET_NAME, PR_GET_NAME);
      CheckCommands(t.sys["fcntl"], 14, 1, FCNTL_COMMANDS);
      AllowDefined(["read"]);
    }

    /** All blocks, in the program's order. */
    method EmitRules(names: seq<string>)
      requires Valid() && open == [] && rules == [] && t.Complete()
      modifies this
      ensures Valid() && open == [] && rules == Rules(t, names, pid)
    {
      EmitInspected();
      if "arch_prctl" in t.sys {
        CheckCommands(t.sys["arch_prctl"], 10, 0, ARCH_COMMANDS);
      }
      AllowDefined(names);
    }
  }

  /** The emission part of installSeccomp: what it hands to the kernel is accepted and decides the
      policy on every record. */
  method InstallSeccomp(t: Platform, pid: bv32) returns (filters: seq<Insn>)
    requires t.Complete()
    ensures filters == Program(t, ALLOWLIST, pid) && KernelAccepts(filters)
    ensures forall d: Data :: d.Valid() ==> Run(filters, d, 0, 0) == Ret(Verdict(t, ALLOWLIST, pid, d))
  {
    hide Run, Verdict, KernelAccepts;
    var b := new FilterBuilder(t, pid);
    b.EmitRules(ALLOWLIST);
    b.Emit([RetK(DENIED)]);
    filters := b.filters;
    assert filters == Program(t, ALLOWLIST, pid);
    ProgramAccepted(t, ALLOWLIST, pid);
    forall d: Data | d.Valid() ensures Run(filters, d, 0, 0) == Ret(Verdict(t, ALLOWLIST, pid, d)) {
      ProgramDecides(t, ALLOWLIST, pid, d, 0);
    }
  }
}
