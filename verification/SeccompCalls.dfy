/** Call by call. */
module SeccompCalls {
  // What the filter answers to each system call by name, with every number written out. The generator's
  // own tables and constants do not occur in these statements, but for the list of calls allowed outright.

  import opened Bpf
  import opened Seccomp

  /** Different calls have different numbers. */
  predicate Apart(t: Platform) {
    forall a, b :: a in t.sys && b in t.sys && t.sys[a] == t.sys[b] ==> a == b
  }

  /** SECCOMP_RET_ALLOW or SECCOMP_RET_ERRNO | EPERM. */
  function AllowIf(allowed: bool): bv32 { if allowed then 0x7FFF_0000 else 0x0005_0001 }

  /** CLONE_VM, CLONE_SIGHAND and CLONE_THREAD must be set; CLONE_FS, FILES, SYSVSEM, SETTLS, PARENT_SETTID,
      CHILD_CLEARTID and CHILD_SETTID may be. */
  predicate StartsThread(flags: bv64) {
    && flags & 0x100 != 0 && flags & 0x800 != 0 && flags & 0x1_0000 != 0
    && flags & !(0x100 | 0x800 | 0x1_0000 | 0x200 | 0x400 | 0x4_0000 | 0x8_0000 | 0x10_0000 | 0x20_0000 | 0x100_0000) == 0
  }

  /** The answer to a call of the program's own ABI, when the `allowed` ones are let through outright. */
  function Answer(name: string, allowed: seq<string>, pid: bv32, d: Data): bv32
    requires d.Valid()
  {
    if name == "clone3" then 0x0005_0026
    else if name == "clone" then AllowIf(StartsThread(d.args[0].Value()))
    else if name == "kill" || name == "tgkill" || name == "rt_sigqueueinfo" || name == "rt_tgsigqueueinfo" then
      AllowIf(d.args[0].lo == pid)
    else if name == "prlimit64" then AllowIf(d.args[0].lo == pid || d.args[0].lo == 0)
    else if name == "prctl" then AllowIf(d.args[0].lo == 15 || d.args[0].lo == 16)
    else if name == "fcntl" then AllowIf(d.args[1].lo <= 4 || d.args[1].lo == 1030)
    else if name == "arch_prctl" then AllowIf(0x1001 <= d.args[0].lo <= 0x1004)
    else AllowIf(name == "read" || name in allowed)
  }

  predicate Special(name: string) {
    name == "clone3" || name == "clone" || name == "kill" || name == "tgkill" || name == "rt_sigqueueinfo" ||
    name == "rt_tgsigqueueinfo" || name == "prlimit64" || name == "prctl" || name == "fcntl" || name == "arch_prctl"
  }

  // ---------- The table, with the names of its rules ----------

  datatype Entry = Entry(name: string, rule: Rule)

  predicate Listed(es: seq<Entry>, rules: seq<Rule>, sys: map<string, bv32>) {
    |es| == |rules| && forall i :: 0 <= i < |es| ==> es[i].rule == rules[i] && es[i].name in sys && rules[i].nr == sys[es[i].name]
  }

  function Find(es: seq<Entry>, name: string): seq<Rule> {
    if es == [] then [] else if es[0].name == name then [es[0].rule] else Find(es[1..], name)
  }

  /** The first entry of that name decides. */
  lemma {:induction false} FindDecides(t: Platform, es: seq<Entry>, rules: seq<Rule>, name: string, d: Data)
    requires d.Valid() && RulesOk(rules) && Listed(es, rules, t.sys) && Apart(t) && name in t.sys && d.nr == t.sys[name]
    ensures var f := Find(es, name);
            RulesOk(f) && FirstMatch(rules, d) == if f == [] then DENIED else Decision(f[0], d)
    decreases |es|
  {
    if es != [] && es[0].name != name {
      FindDecides(t, es[1..], rules[1..], name, d);
    }
  }

  /** A number no entry has is refused. */
  lemma {:induction false} NoneDecides(t: Platform, es: seq<Entry>, rules: seq<Rule>, d: Data)
    requires d.Valid() && RulesOk(rules) && Listed(es, rules, t.sys)
    requires forall i :: 0 <= i < |es| ==> t.sys[es[i].name] != d.nr
    ensures FirstMatch(rules, d) == DENIED
    decreases |es|
  {
    if es != [] {
      assert es[0].name in t.sys;
      NoneDecides(t, es[1..], rules[1..], d);
    }
  }

  lemma {:induction false} FindJoins(a: seq<Entry>, b: seq<Entry>, name: string)
    ensures Find(a + b, name) == if Find(a, name) != [] then Find(a, name) else Find(b, name)
    decreases |a|
  {
    if a == [] {
      assert a + b == b;
    } else {
      assert (a + b)[1..] == a[1..] + b;
      FindJoins(a[1..], b, name);
    }
  }

  lemma ListedJoins(a: seq<Entry>, b: seq<Entry>, r: seq<Rule>, s: seq<Rule>, sys: map<string, bv32>)
    requires Listed(a, r, sys) && Listed(b, s, sys)
    ensures Listed(a + b, r + s, sys)
  {
  }

  function AllowEntries(names: seq<string>, sys: map<string, bv32>): seq<Entry> {
    if names == [] then []
    else (if names[0] in sys then [Entry(names[0], Fixed(sys[names[0]], RET_ALLOW))] else []) + AllowEntries(names[1..], sys)
  }

  lemma {:induction false} AllowListed(names: seq<string>, sys: map<string, bv32>)
    ensures Listed(AllowEntries(names, sys), AllowRules(names, sys), sys)
    ensures forall i :: 0 <= i < |AllowEntries(names, sys)| ==> AllowEntries(names, sys)[i].name in names
    decreases |names|
  {
    if names != [] {
      AllowListed(names[1..], sys);
      assert forall n :: n in names[1..] ==> n in names;
    }
  }

  lemma {:induction false} AllowFound(names: seq<string>, sys: map<string, bv32>, name: string)
    ensures Find(AllowEntries(names, sys), name) ==
            if name in names && name in sys then [Fixed(sys[name], RET_ALLOW)] else []
    decreases |names|
  {
    if names != [] {
      AllowFound(names[1..], sys, name);
      FoundNext(names[0], sys, AllowEntries(names[1..], sys), name);
      assert name in names <==> name == names[0] || name in names[1..];
    }
  }

  lemma FoundNext(first: string, sys: map<string, bv32>, rest: seq<Entry>, name: string)
    ensures Find((if first in sys then [Entry(first, Fixed(sys[first], RET_ALLOW))] else []) + rest, name) ==
            if first in sys && first == name then [Fixed(sys[first], RET_ALLOW)] else Find(rest, name)
  {
    if first in sys {
      assert ([Entry(first, Fixed(sys[first], RET_ALLOW))] + rest)[1..] == rest;
    } else {
      assert [] + rest == rest;
    }
  }

  function Inspected(t: Platform, pid: bv32): seq<Entry>
    requires t.Complete()
  {
    (if "clone3" in t.sys then [Entry("clone3", Fixed(t.sys["clone3"], RET_ENOSYS))] else []) +
    [Entry("clone", ThreadClone(t.sys["clone"]))] +
    SignalEntries(SIGNAL_CALLS, t.sys, pid) +
    [Entry("prlimit64", TwoValues(t.sys["prlimit64"], pid, 0))] +
    [Entry("prctl", TwoValues(t.sys["prctl"], PR_SET_NAME, PR_GET_NAME))] +
    [Entry("fcntl", Commands(t.sys["fcntl"], 1, FCNTL_COMMANDS))] +
    AllowEntries(["read"], t.sys)
  }

  function SignalEntries(names: seq<string>, sys: map<string, bv32>, pid: bv32): (es: seq<Entry>)
    requires forall i :: 0 <= i < |names| ==> names[i] in sys
    ensures |es| == |names| && forall i :: 0 <= i < |es| ==> es[i] == Entry(names[i], SelfSignal(sys[names[i]], pid))
  {
    seq(|names|, i requires 0 <= i < |names| => Entry(names[i], SelfSignal(sys[names[i]], pid)))
  }

  lemma {:induction false} SignalFound(names: seq<string>, sys: map<string, bv32>, pid: bv32, name: string)
    requires forall i :: 0 <= i < |names| ==> names[i] in sys
    ensures Listed(SignalEntries(names, sys, pid), SignalRules(names, sys, pid), sys)
    ensures Find(SignalEntries(names, sys, pid), name) == if name in names then [SelfSignal(sys[name], pid)] else []
    decreases |names|
  {
    if names != [] {
      SignalFound(names[1..], sys, pid, name);
      assert SignalEntries(names, sys, pid)[1..] == SignalEntries(names[1..], sys, pid);
    }
  }

  function Table(t: Platform, names: seq<string>, pid: bv32): seq<Entry>
    requires t.Complete()
  {
    Inspected(t, pid) + (if "arch_prctl" in t.sys then [Entry("arch_prctl", Commands(t.sys["arch_prctl"], 0, ARCH_COMMANDS))] else [])
    + AllowEntries(names, t.sys)
  }

  lemma One(name: string, rule: Rule, sys: map<string, bv32>)
    requires name in sys && rule.nr == sys[name]
    ensures Listed([Entry(name, rule)], [rule], sys)
  {
  }

  lemma OneFound(e: Entry, name: string)
    ensures Find([e], name) == if e.name == name then [e.rule] else []
  {
    assert [e][1..] == [];
  }

  lemma TableListed(t: Platform, names: seq<string>, pid: bv32)
    requires t.Complete()
    ensures Listed(Table(t, names, pid), Rules(t, names, pid), t.sys)
  {
    hide Listed, AllowEntries, AllowRules, SignalEntries, SignalRules, Inspected, InspectedRules;
    InspectedListed(t, pid);
    AllowListed(names, t.sys);
    if "arch_prctl" in t.sys {
      var rule := Commands(t.sys["arch_prctl"], 0, ARCH_COMMANDS);
      One("arch_prctl", rule, t.sys);
      ListedJoins(Inspected(t, pid), [Entry("arch_prctl", rule)], InspectedRules(t, pid), [rule], t.sys);
      ListedJoins(Inspected(t, pid) + [Entry("arch_prctl", rule)], AllowEntries(names, t.sys),
                  InspectedRules(t, pid) + [rule], AllowRules(names, t.sys), t.sys);
    } else {
      assert Inspected(t, pid) + [] == Inspected(t, pid);
      ListedJoins(Inspected(t, pid), AllowEntries(names, t.sys), InspectedRules(t, pid), AllowRules(names, t.sys), t.sys);
    }
  }

  lemma InspectedListed(t: Platform, pid: bv32)
    requires t.Complete()
    ensures Listed(Inspected(t, pid), InspectedRules(t, pid), t.sys)
  {
    hide Listed, AllowEntries, AllowRules, SignalEntries, SignalRules;
    var nr := t.sys;
    var clone3 := if "clone3" in nr then [Entry("clone3", Fixed(nr["clone3"], RET_ENOSYS))] else [];
    var rule3 := if "clone3" in nr then [Fixed(nr["clone3"], RET_ENOSYS)] else [];
    if "clone3" in nr { One("clone3", Fixed(nr["clone3"], RET_ENOSYS), nr); } else { NothingListed(nr); }
    var es, rs := Joined(clone3, rule3, "clone", ThreadClone(nr["clone"]), nr);
    SignalFound(SIGNAL_CALLS, nr, pid, "");
    ListedJoins(es, SignalEntries(SIGNAL_CALLS, nr, pid), rs, SignalRules(SIGNAL_CALLS, nr, pid), nr);
    es, rs := es + SignalEntries(SIGNAL_CALLS, nr, pid), rs + SignalRules(SIGNAL_CALLS, nr, pid);
    es, rs := Joined(es, rs, "prlimit64", TwoValues(nr["prlimit64"], pid, 0), nr);
    es, rs := Joined(es, rs, "prctl", TwoValues(nr["prctl"], PR_SET_NAME, PR_GET_NAME), nr);
    es, rs := Joined(es, rs, "fcntl", Commands(nr["fcntl"], 1, FCNTL_COMMANDS), nr);
    AllowListed(["read"], nr);
    ListedJoins(es, AllowEntries(["read"], nr), rs, AllowRules(["read"], nr), nr);
  }

  lemma NothingListed(sys: map<string, bv32>)
    ensures Listed([], [], sys)
  {
  }

  lemma Joined(es: seq<Entry>, rs: seq<Rule>, name: string, rule: Rule, sys: map<string, bv32>) returns (more: seq<Entry>, rules: seq<Rule>)
    requires Listed(es, rs, sys) && name in sys && rule.nr == sys[name]
    ensures more == es + [Entry(name, rule)] && rules == rs + [rule] && Listed(more, rules, sys)
  {
    more, rules := es + [Entry(name, rule)], rs + [rule];
    One(name, rule, sys);
    ListedJoins(es, [Entry(name, rule)], rs, [rule], sys);
  }

  /** The rule of a name. */
  function RuleOf(t: Platform, names: seq<string>, pid: bv32, name: string): seq<Rule>
    requires t.Complete() && name in t.sys
  {
    var nr := t.sys[name];
    if name == "clone3" then [Fixed(nr, 0x0005_0026)]
    else if name == "clone" then [ThreadClone(nr)]
    else if name == "kill" || name == "tgkill" || name == "rt_sigqueueinfo" || name == "rt_tgsigqueueinfo" then [SelfSignal(nr, pid)]
    else if name == "prlimit64" then [TwoValues(nr, pid, 0)]
    else if name == "prctl" then [TwoValues(nr, 15, 16)]
    else if name == "fcntl" then [Commands(nr, 1, FCNTL_COMMANDS)]
    else if name == "arch_prctl" then [Commands(nr, 0, ARCH_COMMANDS)]
    else if name == "read" || name in names then [Fixed(nr, 0x7FFF_0000)]
    else []
  }

  lemma InspectedFound(t: Platform, pid: bv32, name: string)
    requires t.Complete() && name in t.sys && name != "arch_prctl"
    ensures Find(Inspected(t, pid), name) == if Special(name) || name == "read" then RuleOf(t, ["read"], pid, name) else []
  {
    hide Find, AllowEntries, SignalEntries;
    SignalFound(SIGNAL_CALLS, t.sys, pid, name);
    AllowFound(["read"], t.sys, name);
    var clone3 := if "clone3" in t.sys then [Entry("clone3", Fixed(t.sys["clone3"], RET_ENOSYS))] else [];
    var clone := Entry("clone", ThreadClone(t.sys["clone"]));
    var signals := SignalEntries(SIGNAL_CALLS, t.sys, pid);
    var limit := Entry("prlimit64", TwoValues(t.sys["prlimit64"], pid, 0));
    var prctl := Entry("prctl", TwoValues(t.sys["prctl"], PR_SET_NAME, PR_GET_NAME));
    var fcntl := Entry("fcntl", Commands(t.sys["fcntl"], 1, FCNTL_COMMANDS));
    var read := AllowEntries(["read"], t.sys);
    OneFound(clone, name);
    OneFound(limit, name);
    OneFound(prctl, name);
    OneFound(fcntl, name);
    FoundNone(name);
    if "clone3" in t.sys { OneFound(clone3[0], name); }
    FindJoins(clone3, [clone], name);
    FindJoins(clone3 + [clone], signals, name);
    FindJoins(clone3 + [clone] + signals, [limit], name);
    FindJoins(clone3 + [clone] + signals + [limit], [prctl], name);
    FindJoins(clone3 + [clone] + signals + [limit] + [prctl], [fcntl], name);
    FindJoins(clone3 + [clone] + signals + [limit] + [prctl] + [fcntl], read, name);
    SignalNames(name);
    NamesDiffer();
  }

  lemma FoundNone(name: string)
    ensures Find([], name) == []
  {
  }

  lemma SignalNames(name: string)
    ensures name in SIGNAL_CALLS <==> name == "kill" || name == "tgkill" || name == "rt_sigqueueinfo" || name == "rt_tgsigqueueinfo"
    ensures name in ["read"] <==> name == "read"
  {
  }

  /** Names told apart by a character or their length. */
  lemma NamesDiffer()
    ensures var ns := ["clone3", "clone", "kill", "tgkill", "rt_sigqueueinfo", "rt_tgsigqueueinfo", "prlimit64", "prctl", "fcntl", "arch_prctl", "read"];
            forall i, j :: 0 <= i < j < |ns| ==> ns[i] != ns[j]
  {
    var ns := ["clone3", "clone", "kill", "tgkill", "rt_sigqueueinfo", "rt_tgsigqueueinfo", "prlimit64", "prctl", "fcntl", "arch_prctl", "read"];
    var lengths := [6, 5, 4, 6, 15, 17, 9, 5, 5, 10, 4];
    assert forall i :: 0 <= i < |ns| ==> |ns[i]| == lengths[i];
    assert ns[0][0] != ns[3][0] && ns[1][0] != ns[7][0] && ns[1][0] != ns[8][0] && ns[7][0] != ns[8][0] && ns[2][0] != ns[10][0];
  }

  lemma TableFound(t: Platform, names: seq<string>, pid: bv32, name: string)
    requires t.Complete() && name in t.sys
    ensures Find(Table(t, names, pid), name) == RuleOf(t, names, pid, name)
  {
    hide Find, AllowEntries, Inspected;
    var arch := if "arch_prctl" in t.sys then [Entry("arch_prctl", Commands(t.sys["arch_prctl"], 0, ARCH_COMMANDS))] else [];
    FoundNone(name);
    NamesDiffer();
    if "arch_prctl" in t.sys { OneFound(arch[0], name); }
    AllowFound(names, t.sys, name);
    FindJoins(Inspected(t, pid), arch, name);
    FindJoins(Inspected(t, pid) + arch, AllowEntries(names, t.sys), name);
    if name == "arch_prctl" { NoArch(t, pid); } else { InspectedFound(t, pid, name); }
  }

  lemma NoArch(t: Platform, pid: bv32)
    requires t.Complete()
    ensures Find(Inspected(t, pid), "arch_prctl") == []
  {
    AllowListed(["read"], t.sys);
    NamesDiffer();
    SignalNames("arch_prctl");
    forall i | 0 <= i < |Inspected(t, pid)| ensures Inspected(t, pid)[i].name != "arch_prctl" {}
    NotThere(Inspected(t, pid), "arch_prctl");
  }

  lemma {:induction false} NotThere(es: seq<Entry>, name: string)
    requires forall i :: 0 <= i < |es| ==> es[i].name != name
    ensures Find(es, name) == []
    decreases |es|
  {
    if es != [] { NotThere(es[1..], name); }
  }

  lemma ThreadBits(flags: bv64)
    ensures ThreadFlags(flags) <==> StartsThread(flags)
  {
  }

  lemma CommandNumbers(x: bv32)
    ensures x in FCNTL_COMMANDS <==> x <= 4 || x == 1030
    ensures x in ARCH_COMMANDS <==> 0x1001 <= x <= 0x1004
  {
  }

  // ---------- Main results ----------

  lemma RuleAnswers(t: Platform, names: seq<string>, pid: bv32, name: string, d: Data)
    requires t.Complete() && name in t.sys && d.Valid()
    ensures var f := RuleOf(t, names, pid, name);
            && RulesOk(f)
            && (if f == [] then DENIED else Decision(f[0], d)) == Answer(name, names, pid, d)
  {
    hide Decision, AllowIf, StartsThread, FCNTL_COMMANDS, ARCH_COMMANDS, Wide.Value;
    CommandSizes();
    Decisions(t.sys[name], pid, d);
    Pairs(t.sys[name], pid, 0, d);
    Pairs(t.sys[name], 15, 16, d);
  }

  lemma Decisions(nr: bv32, pid: bv32, d: Data)
    requires d.Valid() && |FCNTL_COMMANDS| <= 6 && |ARCH_COMMANDS| <= 6
    ensures Decision(ThreadClone(nr), d) == AllowIf(StartsThread(d.args[0].Value()))
    ensures Decision(SelfSignal(nr, pid), d) == AllowIf(d.args[0].lo == pid)
    ensures Decision(Commands(nr, 1, FCNTL_COMMANDS), d) == AllowIf(d.args[1].lo <= 4 || d.args[1].lo == 1030)
    ensures Decision(Commands(nr, 0, ARCH_COMMANDS), d) == AllowIf(0x1001 <= d.args[0].lo <= 0x1004)
    ensures Decision(Fixed(nr, 0x0005_0026), d) == 0x0005_0026 && Decision(Fixed(nr, 0x7FFF_0000), d) == AllowIf(true)
    ensures DENIED == AllowIf(false)
  {
    hide StartsThread, ThreadFlags, FCNTL_COMMANDS, ARCH_COMMANDS, Wide.Value;
    ThreadBits(d.args[0].Value());
    CommandNumbers(d.args[0].lo);
    CommandNumbers(d.args[1].lo);
  }

  lemma Pairs(nr: bv32, a: bv32, b: bv32, d: Data)
    requires d.Valid()
    ensures Decision(TwoValues(nr, a, b), d) == AllowIf(d.args[0].lo == a || d.args[0].lo == b)
  {
  }

  lemma CommandSizes()
    ensures |FCNTL_COMMANDS| <= 6 && |ARCH_COMMANDS| <= 6
  {
  }

  /** The filter's answer to every call with a name, from a record of the program's own ABI. */
  lemma CallsDecided(t: Platform, pid: bv32, d: Data, name: string)
    requires t.Complete() && Apart(t) && d.Valid() && name in t.sys && d.nr == t.sys[name]
    requires d.arch == t.arch && (t.x32 ==> d.nr & 0x4000_0000 == 0)
    ensures Run(Program(t, ALLOWLIST, pid), d, 0, 0) == Ret(Answer(name, ALLOWLIST, pid, d))
  {
    NativeDecided(t, ALLOWLIST, pid, d);
    hide *;
    TableListed(t, ALLOWLIST, pid);
    TableFound(t, ALLOWLIST, pid, name);
    FindDecides(t, Table(t, ALLOWLIST, pid), Rules(t, ALLOWLIST, pid), name, d);
    RuleAnswers(t, ALLOWLIST, pid, name, d);
  }

  lemma NativeDecided(t: Platform, names: seq<string>, pid: bv32, d: Data)
    requires t.Complete() && d.Valid() && d.arch == t.arch && (t.x32 ==> d.nr & 0x4000_0000 == 0)
    ensures Run(Program(t, names, pid), d, 0, 0) == Ret(FirstMatch(Rules(t, names, pid), d))
  {
    hide Run, Program, Rules, FirstMatch;
    ProgramDecides(t, names, pid, d, 0);
  }

  /** A number that belongs to none of these names is refused. */
  lemma OthersRefused(t: Platform, pid: bv32, d: Data)
    requires t.Complete() && d.Valid() && d.arch == t.arch && (t.x32 ==> d.nr & 0x4000_0000 == 0)
    requires forall name :: name in t.sys && t.sys[name] == d.nr ==> !Special(name) && name != "read" && name !in ALLOWLIST
    ensures Run(Program(t, ALLOWLIST, pid), d, 0, 0) == Ret(0x0005_0001)
  {
    NativeDecided(t, ALLOWLIST, pid, d);
    hide *;
    TableListed(t, ALLOWLIST, pid);
    TableNames(t, ALLOWLIST, pid);
    NoneDecides(t, Table(t, ALLOWLIST, pid), Rules(t, ALLOWLIST, pid), d);
  }

  lemma {:induction false} FoundIfThere(es: seq<Entry>, i: nat)
    requires i < |es|
    ensures Find(es, es[i].name) != []
    decreases i
  {
    if es[0].name != es[i].name { FoundIfThere(es[1..], i - 1); }
  }

  lemma TableNames(t: Platform, names: seq<string>, pid: bv32)
    requires t.Complete()
    ensures forall i :: 0 <= i < |Table(t, names, pid)| ==>
              var n := Table(t, names, pid)[i].name; n in t.sys && (Special(n) || n == "read" || n in names)
  {
    hide Table, Find, Rules;
    TableListed(t, names, pid);
    forall i | 0 <= i < |Table(t, names, pid)|
      ensures var n := Table(t, names, pid)[i].name; n in t.sys && (Special(n) || n == "read" || n in names)
    {
      FoundIfThere(Table(t, names, pid), i);
      TableFound(t, names, pid, Table(t, names, pid)[i].name);
    }
  }

  /** A call through another ABI ends the process. */
  lemma ForeignKilled(t: Platform, pid: bv32, d: Data)
    requires t.Complete() && d.Valid() && (d.arch != t.arch || (t.x32 && d.nr & 0x4000_0000 != 0))
    ensures Run(Program(t, ALLOWLIST, pid), d, 0, 0) == Ret(0x8000_0000)
  {
    ProgramDecides(t, ALLOWLIST, pid, d, 0);
  }
}
