/** Calls and their samples. */
module ThreadCalls {
  // What the samples of a thread say about the calls its events came from: when each began, how long it took
  // and in what chain, for any nesting of calls, calls that have not returned, and returns from calls that
  // began before the recording.

  import opened SysMonitoring

  /** A call that has returned, with the calls it made. */
  datatype Call = Call(frame: string, from: int, to: int, made: seq<Call>)

  function CallEvents(tid: int, c: Call): seq<Event>
    decreases c, 1
  {
    [Start(tid, c.from, c.frame)] + AllEvents(tid, c.made) + [Return(tid, c.to)]
  }

  function AllEvents(tid: int, cs: seq<Call>): seq<Event>
    decreases cs, 0
  {
    if cs == [] then [] else CallEvents(tid, cs[0]) + AllEvents(tid, cs[1..])
  }

  /** One sample a call, those it made first, each with its time, never negative, and the chain it ended. */
  function CallSamples(tid: int, chain: seq<string>, c: Call): seq<Sample>
    decreases c, 1
  {
    AllSamples(tid, chain + [c.frame], c.made) +
    [Sample(tid, c.from, if c.from <= c.to then c.to - c.from else 0, chain + [c.frame])]
  }

  function AllSamples(tid: int, chain: seq<string>, cs: seq<Call>): seq<Sample>
    decreases cs, 0
  {
    if cs == [] then [] else CallSamples(tid, chain, cs[0]) + AllSamples(tid, chain, cs[1..])
  }

  /** A call that has not returned yet, and those it made and that have. */
  datatype Running = Running(frame: string, from: int, made: seq<Call>)

  function RunningEvents(tid: int, rs: seq<Running>): seq<Event>
    decreases |rs|
  {
    if rs == [] then [] else [Start(tid, rs[0].from, rs[0].frame)] + AllEvents(tid, rs[0].made) + RunningEvents(tid, rs[1..])
  }

  function MadeSamples(tid: int, chain: seq<string>, rs: seq<Running>): seq<Sample>
    decreases |rs|
  {
    if rs == [] then []
    else AllSamples(tid, chain + [rs[0].frame], rs[0].made) + MadeSamples(tid, chain + [rs[0].frame], rs[1..])
  }

  /** Those still running at the end get no time; the innermost comes first. */
  function RunningSamples(tid: int, chain: seq<string>, rs: seq<Running>): seq<Sample>
    decreases |rs|
  {
    if rs == [] then []
    else RunningSamples(tid, chain + [rs[0].frame], rs[1..]) + [Sample(tid, rs[0].from, 0, chain + [rs[0].frame])]
  }

  /** Before the first running call: calls that have returned, and returns from ones that began earlier. */
  datatype Part = Whole(call: Call) | Stray(ts: int)

  function PartEvents(tid: int, ps: seq<Part>): seq<Event>
    decreases |ps|
  {
    if ps == [] then [] else (if ps[0].Whole? then CallEvents(tid, ps[0].call) else [Return(tid, ps[0].ts)]) + PartEvents(tid, ps[1..])
  }

  function PartSamples(tid: int, ps: seq<Part>): seq<Sample>
    decreases |ps|
  {
    if ps == [] then [] else (if ps[0].Whole? then CallSamples(tid, [], ps[0].call) else []) + PartSamples(tid, ps[1..])
  }

  // ---------- Proof ----------

  function After(t: Thread, es: seq<Event>): Thread
    decreases |es|
  {
    if es == [] then t else After(Step(t, es[0]), es[1..])
  }

  lemma {:induction false} AfterJoins(t: Thread, a: seq<Event>, b: seq<Event>)
    ensures After(t, a + b) == After(After(t, a), b)
    decreases |a|
  {
    if a == [] {
      assert a + b == b;
    } else {
      assert (a + b)[1..] == a[1..] + b;
      AfterJoins(Step(t, a[0]), a[1..], b);
    }
  }

  lemma {:induction false} RunIsAfter(es: seq<Event>)
    ensures Run(es) == After(Thread([], []), es)
    decreases |es|
  {
    if es != [] {
      var n := |es| - 1;
      RunIsAfter(es[..n]);
      AfterJoins(Thread([], []), es[..n], [es[n]]);
      AfterOne(Run(es[..n]), es[n]);
      assert es == es[..n] + [es[n]];
    }
  }

  lemma AfterOne(t: Thread, e: Event)
    ensures After(t, [e]) == Step(t, e)
  {
    assert [e][1..] == [];
  }

  lemma Joins(a: seq<Sample>, b: seq<Sample>, c: seq<Sample>)
    ensures a + (b + c) == a + b + c && a + [] == a && [] + a == a
  {
  }

  lemma FramesSnoc(open: seq<Open>, o: Open)
    ensures Frames(open + [o]) == Frames(open) + [o.frame] && (open + [o])[..|open|] == open
  {
  }

  lemma Nothing(t: Thread)
    ensures After(t, []) == t && Thread(t.open, t.samples + []) == t && Frames([]) == []
  {
    assert t.samples + [] == t.samples;
  }

  lemma {:induction false} CallRuns(tid: int, t: Thread, c: Call)
    ensures After(t, CallEvents(tid, c)) == Thread(t.open, t.samples + CallSamples(tid, Frames(t.open), c))
    decreases c, 1
  {
    hide Frames;
    var begun := Thread(t.open + [Open(c.from, c.frame)], t.samples);
    FramesSnoc(t.open, Open(c.from, c.frame));
    AfterJoins(t, [Start(tid, c.from, c.frame)] + AllEvents(tid, c.made), [Return(tid, c.to)]);
    AfterJoins(t, [Start(tid, c.from, c.frame)], AllEvents(tid, c.made));
    AfterOne(t, Start(tid, c.from, c.frame));
    CallsRun(tid, begun, c.made);
    var made := Thread(begun.open, t.samples + AllSamples(tid, Frames(begun.open), c.made));
    AfterOne(made, Return(tid, c.to));
  }

  lemma {:induction false} CallsRun(tid: int, t: Thread, cs: seq<Call>)
    ensures After(t, AllEvents(tid, cs)) == Thread(t.open, t.samples + AllSamples(tid, Frames(t.open), cs))
    decreases cs, 0
  {
    hide CallEvents, CallSamples, After, Frames;
    Nothing(t);
    if cs != [] {
      AfterJoins(t, CallEvents(tid, cs[0]), AllEvents(tid, cs[1..]));
      Joins(t.samples, CallSamples(tid, Frames(t.open), cs[0]), AllSamples(tid, Frames(t.open), cs[1..]));
      CallRuns(tid, t, cs[0]);
      CallsRun(tid, Thread(t.open, t.samples + CallSamples(tid, Frames(t.open), cs[0])), cs[1..]);
    }
  }

  lemma {:induction false} PartsRun(tid: int, done: seq<Sample>, ps: seq<Part>)
    ensures After(Thread([], done), PartEvents(tid, ps)) == Thread([], done + PartSamples(tid, ps))
    decreases |ps|
  {
    hide CallEvents, CallSamples, After, Frames;
    var t := Thread([], done);
    Nothing(t);
    if ps != [] {
      if ps[0].Whole? {
        Joins(done, CallSamples(tid, [], ps[0].call), PartSamples(tid, ps[1..]));
        AfterJoins(t, CallEvents(tid, ps[0].call), PartEvents(tid, ps[1..]));
        CallRuns(tid, t, ps[0].call);
        PartsRun(tid, done + CallSamples(tid, [], ps[0].call), ps[1..]);
      } else {
        AfterJoins(t, [Return(tid, ps[0].ts)], PartEvents(tid, ps[1..]));
        AfterOne(t, Return(tid, ps[0].ts));
        Joins(PartSamples(tid, ps[1..]), [], []);
        PartsRun(tid, done, ps[1..]);
      }
    }
  }

  /** What running calls leave: the samples of those they made, and themselves to be flushed. */
  lemma {:induction false} RunningRuns(tid: int, t: Thread, rs: seq<Running>)
    ensures var u := After(t, RunningEvents(tid, rs));
            && u.samples == t.samples + MadeSamples(tid, Frames(t.open), rs)
            && Flush(tid, u.open) == RunningSamples(tid, Frames(t.open), rs) + Flush(tid, t.open)
    decreases |rs|
  {
    hide Frames, Flush;
    if rs != [] {
      var o := Open(rs[0].from, rs[0].frame);
      FramesSnoc(t.open, o);
      var begun := Thread(t.open + [o], t.samples);
      var front := [Start(tid, rs[0].from, rs[0].frame)] + AllEvents(tid, rs[0].made);
      AfterJoins(t, front, RunningEvents(tid, rs[1..]));
      AfterJoins(t, [Start(tid, rs[0].from, rs[0].frame)], AllEvents(tid, rs[0].made));
      AfterOne(t, Start(tid, rs[0].from, rs[0].frame));
      CallsRun(tid, begun, rs[0].made);
      var made := Thread(begun.open, t.samples + AllSamples(tid, Frames(begun.open), rs[0].made));
      RunningRuns(tid, made, rs[1..]);
      FlushLast(tid, t.open, o);
      assert After(t, RunningEvents(tid, rs)) == After(made, RunningEvents(tid, rs[1..]));
    }
  }

  lemma FlushLast(tid: int, open: seq<Open>, o: Open)
    ensures Flush(tid, open + [o]) == [Sample(tid, o.ts, 0, Frames(open) + [o.frame])] + Flush(tid, open)
  {
    FramesSnoc(open, o);
  }

  // ---------- Main result ----------

  /** The samples of a thread are those of its calls. */
  lemma SamplesOfCalls(tid: int, ps: seq<Part>, rs: seq<Running>)
    ensures ThreadSamples(tid, PartEvents(tid, ps) + RunningEvents(tid, rs)) ==
            PartSamples(tid, ps) + MadeSamples(tid, [], rs) + RunningSamples(tid, [], rs)
  {
    RunIsAfter(PartEvents(tid, ps) + RunningEvents(tid, rs));
    AfterJoins(Thread([], []), PartEvents(tid, ps), RunningEvents(tid, rs));
    PartsRun(tid, [], ps);
    var t := Thread([], PartSamples(tid, ps));
    assert [] + PartSamples(tid, ps) == PartSamples(tid, ps);
    RunningRuns(tid, t, rs);
    assert Frames([]) == [] && Flush(tid, []) == [];
    assert RunningSamples(tid, [], rs) + [] == RunningSamples(tid, [], rs);
  }

  /** Every list of events of a thread is one of calls: so what is said above covers all of them. */
  lemma {:induction false} EventsAreCalls(tid: int, es: seq<Event>) returns (ps: seq<Part>, rs: seq<Running>)
    requires OneThread(tid, es)
    ensures es == PartEvents(tid, ps) + RunningEvents(tid, rs)
    decreases |es|
  {
    hide PartEvents, RunningEvents;
    if es == [] {
      ps, rs := [], [];
      NoEvents(tid);
    } else {
      var n := |es| - 1;
      assert es[n] in es && forall e :: e in es[..n] ==> e in es;
      ps, rs := EventsAreCalls(tid, es[..n]);
      assert es == es[..n] + [es[n]];
      EventsJoin(PartEvents(tid, ps), RunningEvents(tid, rs), [es[n]]);
      ps, rs := OneMore(tid, ps, rs, es[n]);
    }
  }

  lemma OneMore(tid: int, ps: seq<Part>, rs: seq<Running>, e: Event) returns (qs: seq<Part>, ss: seq<Running>)
    requires e.tid == tid
    ensures PartEvents(tid, qs) + RunningEvents(tid, ss) == PartEvents(tid, ps) + (RunningEvents(tid, rs) + [e])
  {
    hide PartEvents, RunningEvents, CallEvents;
    if e.Start? {
      Begins(tid, rs, e);
      qs, ss := ps, rs + [Running(e.frame, e.ts, [])];
    } else if rs == [] {
      PartsSnoc(tid, ps, Stray(e.ts));
      NoEvents(tid);
      qs, ss := ps + [Stray(e.ts)], [];
    } else {
      var last, front := rs[|rs| - 1], rs[..|rs| - 1];
      assert rs == front + [last];
      var call := Call(last.frame, last.from, e.ts, last.made);
      Returns(tid, front, last, e);
      NoEvents(tid);
      if front == [] {
        PartsSnoc(tid, ps, Whole(call));
        qs, ss := ps + [Whole(call)], [];
      } else {
        ss := Made(tid, front, call);
        qs := ps;
      }
    }
  }

  lemma NoEvents(tid: int)
    ensures PartEvents(tid, []) == [] && RunningEvents(tid, []) == [] && AllEvents(tid, []) == []
  {
  }

  lemma EventsJoin(a: seq<Event>, b: seq<Event>, c: seq<Event>)
    ensures (a + b) + c == a + (b + c) && a + [] == a && [] + c == c
  {
  }

  lemma Begins(tid: int, rs: seq<Running>, e: Event)
    requires e.Start? && e.tid == tid
    ensures RunningEvents(tid, rs + [Running(e.frame, e.ts, [])]) == RunningEvents(tid, rs) + [e]
  {
    RunningSnoc(tid, rs, Running(e.frame, e.ts, []));
    assert [e] + [] == [e];
  }

  lemma Returns(tid: int, front: seq<Running>, last: Running, e: Event)
    requires e.Return? && e.tid == tid
    ensures RunningEvents(tid, front + [last]) + [e] ==
            RunningEvents(tid, front) + CallEvents(tid, Call(last.frame, last.from, e.ts, last.made))
  {
    RunningSnoc(tid, front, last);
    EventsJoin(RunningEvents(tid, front), [Start(tid, last.from, last.frame)] + AllEvents(tid, last.made), [e]);
  }

  lemma Made(tid: int, front: seq<Running>, call: Call) returns (rs: seq<Running>)
    requires front != []
    ensures RunningEvents(tid, rs) == RunningEvents(tid, front) + CallEvents(tid, call)
  {
    hide CallEvents, AllEvents, RunningEvents;
    var outer, more := front[|front| - 1], front[..|front| - 1];
    assert front == more + [outer];
    var made := Running(outer.frame, outer.from, outer.made + [call]);
    RunningSnoc(tid, more, outer);
    RunningSnoc(tid, more, made);
    EventsSnoc(tid, outer.made, call);
    var start := [Start(tid, outer.from, outer.frame)];
    EventsJoin(start, AllEvents(tid, outer.made), CallEvents(tid, call));
    EventsJoin(RunningEvents(tid, more), start + AllEvents(tid, outer.made), CallEvents(tid, call));
    rs := more + [made];
  }

  lemma {:induction false} RunningSnoc(tid: int, rs: seq<Running>, r: Running)
    ensures RunningEvents(tid, rs + [r]) == RunningEvents(tid, rs) + ([Start(tid, r.from, r.frame)] + AllEvents(tid, r.made))
    decreases |rs|
  {
    if rs == [] {
      assert ([r])[1..] == [];
    } else {
      assert (rs + [r])[1..] == rs[1..] + [r];
      RunningSnoc(tid, rs[1..], r);
    }
  }

  lemma {:induction false} PartsSnoc(tid: int, ps: seq<Part>, q: Part)
    ensures PartEvents(tid, ps + [q]) == PartEvents(tid, ps) + if q.Whole? then CallEvents(tid, q.call) else [Return(tid, q.ts)]
    decreases |ps|
  {
    hide CallEvents;
    if ps == [] {
      assert ([q])[1..] == [];
    } else {
      assert (ps + [q])[1..] == ps[1..] + [q];
      PartsSnoc(tid, ps[1..], q);
    }
  }

  lemma {:induction false} EventsSnoc(tid: int, cs: seq<Call>, c: Call)
    ensures AllEvents(tid, cs + [c]) == AllEvents(tid, cs) + CallEvents(tid, c)
    decreases |cs|
  {
    hide CallEvents;
    if cs == [] {
      assert ([c])[1..] == [];
    } else {
      assert (cs + [c])[1..] == cs[1..] + [c];
      EventsSnoc(tid, cs[1..], c);
    }
  }
}
