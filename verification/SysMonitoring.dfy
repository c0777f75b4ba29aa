/** Call stacks rebuilt from thread events. */
module SysMonitoring {
  datatype Event = Start(tid: int, ts: int, frame: string) | Return(tid: int, ts: int)

  datatype Open = Open(ts: int, frame: string)

  datatype Sample = Sample(tid: int, ts: int, duration: nat, stack: seq<string>)

  function Frames(stack: seq<Open>): seq<string> {
    seq(|stack|, i requires 0 <= i < |stack| => stack[i].frame)
  }

  function Elapsed(from: int, to: int): nat { if to >= from then to - from else 0 }

  // ---------- One thread on its own ----------

  /** The frames still open and the samples so far. */
  datatype Thread = Thread(open: seq<Open>, samples: seq<Sample>)

  function Step(t: Thread, e: Event): Thread {
    match e
    case Start(_, ts, frame) => t.(open := t.open + [Open(ts, frame)])
    case Return(tid, ts) =>
      if t.open == [] then t
      else
        var top := t.open[|t.open| - 1];
        Thread(t.open[..|t.open| - 1], t.samples + [Sample(tid, top.ts, Elapsed(top.ts, ts), Frames(t.open))])
  }

  function Run(es: seq<Event>): Thread {
    if es == [] then Thread([], []) else Step(Run(es[..|es| - 1]), es[|es| - 1])
  }

  /** Frames still open at the end, innermost first. */
  function Flush(tid: int, open: seq<Open>): seq<Sample>
    decreases |open|
  {
    if open == [] then []
    else
      var top := open[|open| - 1];
      [Sample(tid, top.ts, 0, Frames(open))] + Flush(tid, open[..|open| - 1])
  }

  function ThreadSamples(tid: int, es: seq<Event>): seq<Sample> {
    Run(es).samples + Flush(tid, Run(es).open)
  }

  // ---------- Projections ----------

  function EventsOf(es: seq<Event>, tid: int): seq<Event> {
    if es == [] then []
    else EventsOf(es[..|es| - 1], tid) + if es[|es| - 1].tid == tid then [es[|es| - 1]] else []
  }

  function SamplesOf(ss: seq<Sample>, tid: int): seq<Sample> {
    if ss == [] then []
    else SamplesOf(ss[..|ss| - 1], tid) + if ss[|ss| - 1].tid == tid then [ss[|ss| - 1]] else []
  }

  lemma OneMoreEvent(es: seq<Event>, e: Event, tid: int)
    ensures EventsOf(es + [e], tid) == EventsOf(es, tid) + if e.tid == tid then [e] else []
  {
    assert (es + [e])[..|es|] == es;
  }

  lemma OneMoreSample(ss: seq<Sample>, s: Sample, tid: int)
    ensures SamplesOf(ss + [s], tid) == SamplesOf(ss, tid) + if s.tid == tid then [s] else []
  {
    assert (ss + [s])[..|ss|] == ss;
  }

  lemma RunOneMore(es: seq<Event>, e: Event)
    ensures Run(es + [e]) == Step(Run(es), e)
  {
    assert (es + [e])[..|es|] == es;
  }

  // ---------- The converter ----------

  type Stacks = map<int, seq<Open>>

  function Of(open: Stacks, tid: int): seq<Open> {
    if tid in open then open[tid] else []
  }

  /** Every thread has got exactly what it would have got alone. */
  ghost predicate Separate(es: seq<Event>, open: Stacks, out: seq<Sample>) {
    forall tid :: Run(EventsOf(es, tid)) == Thread(Of(open, tid), SamplesOf(out, tid))
  }

  method Handle(es: seq<Event>, e: Event, open0: Stacks, out0: seq<Sample>) returns (open: Stacks, out: seq<Sample>)
    requires Separate(es, open0, out0)
    ensures Separate(es + [e], open, out)
  {
    open, out := open0, out0;
    var stack := Of(open, e.tid);
    ghost var more: seq<Sample> := [];
    if e.Start? {
      open := open[e.tid := stack + [Open(e.ts, e.frame)]];
    } else if stack != [] {
      var chain := Frames(stack);
      var start := stack[|stack| - 1].ts;
      var sample := Sample(e.tid, start, Elapsed(start, e.ts), chain);
      more := [sample];
      open := open[e.tid := stack[..|stack| - 1]];
      out := out + [sample];
    }
    assert Thread(Of(open, e.tid), SamplesOf(out0, e.tid) + more) == Step(Thread(stack, SamplesOf(out0, e.tid)), e);
    forall tid
      ensures Run(EventsOf(es + [e], tid)) == Thread(Of(open, tid), SamplesOf(out, tid))
    {
      Projects(es, e, open0, out0, open, out, more, tid);
    }
  }

  lemma Projects(es: seq<Event>, e: Event, open0: Stacks, out0: seq<Sample>, open: Stacks, out: seq<Sample>, more: seq<Sample>, tid: int)
    requires Separate(es, open0, out0) && out == out0 + more && |more| <= 1 && (more != [] ==> more[0].tid == e.tid)
    requires tid != e.tid ==> Of(open, tid) == Of(open0, tid)
    requires Thread(Of(open, e.tid), SamplesOf(out0, e.tid) + more) == Step(Thread(Of(open0, e.tid), SamplesOf(out0, e.tid)), e)
    ensures Run(EventsOf(es + [e], tid)) == Thread(Of(open, tid), SamplesOf(out, tid))
  {
    hide Run, Step, EventsOf, SamplesOf;
    OneMoreEvent(es, e, tid);
    assert SamplesOf(out, tid) == SamplesOf(out0, tid) + if e.tid == tid then more else [] by {
      if more == [] {
        assert out0 + more == out0 && SamplesOf(out0, tid) + [] == SamplesOf(out0, tid);
      } else {
        assert more == [more[0]];
        OneMoreSample(out0, more[0], tid);
      }
    }
    assert Run(EventsOf(es, tid)) == Thread(Of(open0, tid), SamplesOf(out0, tid));
    if e.tid == tid {
      RunOneMore(EventsOf(es, tid), e);
    } else {
      assert EventsOf(es, tid) + [] == EventsOf(es, tid) && SamplesOf(out0, tid) + [] == SamplesOf(out0, tid);
    }
  }

  method FlushThread(tid: int, open: seq<Open>, out0: seq<Sample>) returns (out: seq<Sample>)
    ensures forall t :: SamplesOf(out, t) == SamplesOf(out0, t) + if t == tid then Flush(tid, open) else []
  {
    out := out0;
    var stack := open;
    while stack != []
      invariant forall t :: SamplesOf(out, t) + (if t == tid then Flush(tid, stack) else []) ==
                            SamplesOf(out0, t) + if t == tid then Flush(tid, open) else []
      decreases |stack|
    {
      var s := Sample(tid, stack[|stack| - 1].ts, 0, Frames(stack));
      forall t
        ensures SamplesOf(out + [s], t) + (if t == tid then Flush(tid, stack[..|stack| - 1]) else []) ==
                SamplesOf(out, t) + if t == tid then Flush(tid, stack) else []
      {
        OneMoreSample(out, s, t);
      }
      out := out + [s];
      stack := stack[..|stack| - 1];
    }
  }

  /** The samples of each thread are those of its own events, however the threads were interleaved; a
      stream without a start is refused. */
  method Convert(es: seq<Event>) returns (ok: bool, out: seq<Sample>)
    ensures forall tid :: SamplesOf(out, tid) == ThreadSamples(tid, EventsOf(es, tid))
    ensures ok <==> out != []
  {
    var open: Stacks := map[];
    out := [];
    for i := 0 to |es|
      invariant Separate(es[..i], open, out)
    {
      open, out := Handle(es[..i], es[i], open, out);
      assert es[..i] + [es[i]] == es[..i + 1];
    }
    assert es[..|es|] == es;
    out := FlushAll(open, out);
    ok := |out| > 0;
  }

  method FlushAll(open: Stacks, out0: seq<Sample>) returns (out: seq<Sample>)
    ensures forall tid: int :: SamplesOf(out, tid) == SamplesOf(out0, tid) + Flush(tid, Of(open, tid))
  {
    out := out0;
    var left := open.Keys;
    while left != {}
      invariant left <= open.Keys
      invariant forall tid: int :: SamplesOf(out, tid) == SamplesOf(out0, tid) + if tid in left then [] else Flush(tid, Of(open, tid))
      decreases left
    {
      NotEmpty(left);
      var tid: int :| tid in left;
      out := FlushThread(tid, open[tid], out);
      left := left - {tid};
    }
  }

  lemma NotEmpty(s: set<int>)
    ensures s == {} || exists x: int :: x in s
  {
    if forall x: int :: x !in s {
      assert s == {};
    }
  }

  // ---------- Every start yields one sample ----------

  /** A frame as it was opened: its thread, its time, and the chain of frames it closed off. */
  datatype Opened = Opened(tid: int, ts: int, stack: seq<string>)

  /** The frames a thread opens, from `open` on. */
  function Openings(es: seq<Event>): seq<Opened> {
    if es == [] then []
    else
      var e, before := es[|es| - 1], es[..|es| - 1];
      Openings(before) + if e.Start? then [Opened(e.tid, e.ts, Frames(Run(before).open + [Open(e.ts, e.frame)]))] else []
  }

  function Seen(ss: seq<Sample>): seq<Opened> {
    seq(|ss|, i requires 0 <= i < |ss| => Opened(ss[i].tid, ss[i].ts, ss[i].stack))
  }

  predicate OneThread(tid: int, es: seq<Event>) {
    forall e :: e in es ==> e.tid == tid
  }

  /** The openings that are still to be closed. */
  function Pending(tid: int, open: seq<Open>): seq<Opened>
    decreases |open|
  {
    if open == [] then []
    else Pending(tid, open[..|open| - 1]) + [Opened(tid, open[|open| - 1].ts, Frames(open))]
  }

  lemma {:induction false} FlushSeesPending(tid: int, open: seq<Open>)
    ensures multiset(Seen(Flush(tid, open))) == multiset(Pending(tid, open))
    decreases |open|
  {
    if open != [] {
      var more := open[..|open| - 1];
      FlushSeesPending(tid, more);
      var s := Sample(tid, open[|open| - 1].ts, 0, Frames(open));
      assert Seen([s] + Flush(tid, more)) == [Opened(tid, s.ts, s.stack)] + Seen(Flush(tid, more));
    } else {
      assert Seen(Flush(tid, open)) == [];
    }
  }

  lemma {:induction false} RunSeesOpenings(tid: int, es: seq<Event>)
    requires OneThread(tid, es)
    ensures multiset(Openings(es)) == multiset(Seen(Run(es).samples)) + multiset(Pending(tid, Run(es).open))
  {
    if es == [] {
      assert Seen(Run(es).samples) == [];
    } else {
      var e, before := es[|es| - 1], es[..|es| - 1];
      RunSeesOpenings(tid, before);
      var t := Run(before);
      assert e in es;
      StepSees(tid, t, e);
    }
  }

  lemma StepSees(tid: int, t: Thread, e: Event)
    requires e.tid == tid
    ensures var u := Step(t, e);
            multiset(Seen(u.samples)) + multiset(Pending(tid, u.open)) ==
            multiset(Seen(t.samples)) + multiset(Pending(tid, t.open)) +
            if e.Start? then multiset{Opened(tid, e.ts, Frames(t.open + [Open(e.ts, e.frame)]))} else multiset{}
  {
    var u := Step(t, e);
    if e.Start? {
      assert u.open[..|u.open| - 1] == t.open;
    } else if t.open != [] {
      assert u.samples[..|t.samples|] == t.samples;
      var s := u.samples[|t.samples|];
      assert Seen(u.samples) == Seen(t.samples) + [Opened(tid, s.ts, s.stack)];
    }
  }

  /** A thread's samples are its openings: one for each start, with the chain that was open then. */
  lemma ThreadSamplesAreOpenings(tid: int, es: seq<Event>)
    requires OneThread(tid, es)
    ensures multiset(Seen(ThreadSamples(tid, es))) == multiset(Openings(es))
  {
    hide Seen, Openings, Pending, Flush, Run;
    RunSeesOpenings(tid, es);
    FlushSeesPending(tid, Run(es).open);
    SeenJoins(Run(es).samples, Flush(tid, Run(es).open));
  }

  lemma SeenJoins(a: seq<Sample>, b: seq<Sample>)
    ensures Seen(a + b) == Seen(a) + Seen(b)
  {
  }

  function Starts(es: seq<Event>): nat {
    if es == [] then 0 else Starts(es[..|es| - 1]) + if es[|es| - 1].Start? then 1 else 0
  }

  lemma {:induction false} ProjectionIsOneThread(es: seq<Event>, tid: int)
    ensures OneThread(tid, EventsOf(es, tid))
  {
    if es != [] { ProjectionIsOneThread(es[..|es| - 1], tid); }
  }

  /** The openings of all threads together: each frame with the chain open on its own thread. */
  function AllOpenings(es: seq<Event>): seq<Opened> {
    if es == [] then []
    else
      var e, before := es[|es| - 1], es[..|es| - 1];
      AllOpenings(before) +
      if e.Start? then [Opened(e.tid, e.ts, Frames(Run(EventsOf(before, e.tid)).open + [Open(e.ts, e.frame)]))] else []
  }

  lemma {:induction false} OpeningsOfThread(es: seq<Event>, r: Opened)
    ensures multiset(AllOpenings(es))[r] == multiset(Openings(EventsOf(es, r.tid)))[r]
  {
    if es != [] {
      var e, before := es[|es| - 1], es[..|es| - 1];
      OpeningsOfThread(before, r);
      var mine := EventsOf(before, r.tid);
      if e.tid == r.tid {
        assert (mine + [e])[..|mine|] == mine;
      } else {
        assert mine + [] == mine;
        assert e.Start? ==> AllOpenings(es)[|AllOpenings(before)|].tid != r.tid;
      }
    }
  }

  lemma {:induction false} SamplesOfThread(ss: seq<Sample>, r: Opened)
    ensures multiset(Seen(ss))[r] == multiset(Seen(SamplesOf(ss, r.tid)))[r]
    decreases |ss|
  {
    if ss != [] {
      var s, before := ss[|ss| - 1], ss[..|ss| - 1];
      SamplesOfThread(before, r);
      assert ss == before + [s];
      SeenJoins(before, [s]);
      SeenJoins(SamplesOf(before, r.tid), if s.tid == r.tid then [s] else []);
      assert Seen([s]) == [Opened(s.tid, s.ts, s.stack)];
      assert Seen([]) == [];
    } else {
      assert Seen(ss) == [];
    }
  }

  lemma {:induction false} AllOpeningsCount(es: seq<Event>)
    ensures |AllOpenings(es)| == Starts(es)
  {
    if es != [] { AllOpeningsCount(es[..|es| - 1]); }
  }

  /** Over all threads, the samples are exactly the frames opened, each with the chain that was open on
      its thread at that moment; so there are as many samples as starts. */
  lemma SamplesAreStarts(es: seq<Event>, out: seq<Sample>)
    requires forall t: int :: SamplesOf(out, t) == ThreadSamples(t, EventsOf(es, t))
    ensures multiset(Seen(out)) == multiset(AllOpenings(es))
    ensures |out| == Starts(es)
  {
    hide Seen, AllOpenings, SamplesOf, ThreadSamples, EventsOf;
    forall r: Opened
      ensures multiset(Seen(out))[r] == multiset(AllOpenings(es))[r]
    {
      CountOf(es, out, r);
    }
    AllOpeningsCount(es);
    SameSize(Seen(out), AllOpenings(es));
    SeenSize(out);
  }

  lemma CountOf(es: seq<Event>, out: seq<Sample>, r: Opened)
    requires SamplesOf(out, r.tid) == ThreadSamples(r.tid, EventsOf(es, r.tid))
    ensures multiset(Seen(out))[r] == multiset(AllOpenings(es))[r]
  {
    hide Seen, AllOpenings, SamplesOf, ThreadSamples, EventsOf;
    ProjectionIsOneThread(es, r.tid);
    ThreadSamplesAreOpenings(r.tid, EventsOf(es, r.tid));
    OpeningsOfThread(es, r);
    SamplesOfThread(out, r);
  }

  lemma SeenSize(ss: seq<Sample>)
    ensures |Seen(ss)| == |ss|
  {
  }

  lemma SameSize(a: seq<Opened>, b: seq<Opened>)
    requires multiset(a) == multiset(b)
    ensures |a| == |b|
  {
    assert |a| == |multiset(a)| && |b| == |multiset(b)|;
  }
}
