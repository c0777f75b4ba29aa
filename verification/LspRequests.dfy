/** Requests and their answers, as steps. */
module LspRequests {
  // Requests to a language server and the table in which the reader thread leaves the answers, as steps
  // of the two threads in any order.

  import opened Options
  import opened Narrowing

  datatype Event<M> =
    | Sent(id: int)                     // a request goes out
    | Received(wide: Wide, msg: M)      // the reader stores whatever carries an integer identifier
    | Taken(id: int, msg: M)            // the requester finds its answer
    | TimedOut(id: int)                 // the requester clears its entry and goes on
    | Abandoned(id: int)                // the requester leaves because the bridge stops or is cut off

  datatype State<M> = State(nextId: int, pending: map<int, M>, waiting: Option<int>)

  /** One step under the lock, if the threads can make it. */
  function Next<M(==)>(s: State<M>, e: Event<M>): Option<State<M>> {
    match e
    case Sent(id) =>
      if s.waiting.None? && id == s.nextId then Some(State(s.nextId + 1, s.pending, Some(id))) else None
    case Received(wide, msg) =>
      Some(s.(pending := s.pending[Narrow(wide) := msg]))
    case Taken(id, msg) =>
      if s.waiting == Some(id) && id in s.pending && s.pending[id] == msg then Some(State(s.nextId, s.pending - {id}, None)) else None
    case TimedOut(id) =>
      if s.waiting == Some(id) then Some(State(s.nextId, s.pending - {id}, None)) else None
    case Abandoned(id) =>
      if s.waiting == Some(id) then Some(State(s.nextId, s.pending, None)) else None
  }

  /** The state behind a run; there is none if some step was not possible. */
  function After<M(==)>(run: seq<Event<M>>): Option<State<M>> {
    if run == [] then Some(State(1, map[], None))
    else
      var before := After(run[..|run| - 1]);
      if before.None? then None else Next(before.value, run[|run| - 1])
  }

  lemma {:induction false} PrefixRuns<M>(run: seq<Event<M>>, n: nat)
    requires After(run).Some? && n <= |run|
    ensures After(run[..n]).Some?
    decreases |run|
  {
    if n < |run| {
      PrefixRuns(run[..|run| - 1], n);
      assert run[..|run| - 1][..n] == run[..n];
    } else {
      assert run[..n] == run;
    }
  }

  // ---------- What the table holds ----------

  predicate Touches<M>(e: Event<M>, id: int) {
    (e.Received? && Narrow(e.wide) == id) || (e.Taken? && e.id == id) || (e.TimedOut? && e.id == id)
  }

  /** The `j`-th step stored this message under this identifier, and nothing has touched it since. */
  ghost predicate Stored<M>(run: seq<Event<M>>, j: nat, id: int, msg: M) {
    && j < |run| && run[j].Received? && Narrow(run[j].wide) == id && run[j].msg == msg
    && forall l :: j < l < |run| ==> !Touches(run[l], id)
  }

  lemma {:induction false} PendingWasStored<M>(run: seq<Event<M>>, id: int) returns (j: nat)
    requires After(run).Some? && id in After(run).value.pending
    ensures Stored(run, j, id, After(run).value.pending[id])
    decreases |run|
  {
    var n := |run| - 1;
    var e := run[n];
    if e.Received? && Narrow(e.wide) == id {
      j := n;
    } else {
      j := PendingWasStored(run[..n], id);
      assert forall l :: j < l < n ==> run[l] == run[..n][l];
    }
  }

  // ---------- Identifiers ----------

  predicate Closes<M>(e: Event<M>, id: int) {
    (e.Taken? || e.TimedOut? || e.Abandoned?) && e.id == id
  }

  /** Who waits has sent, and nothing has closed the request yet. */
  ghost predicate Open<M>(run: seq<Event<M>>, i: nat, id: int) {
    && i < |run| && run[i] == Sent(id)
    && forall l :: 0 <= l < |run| ==> !Closes(run[l], id) && (run[l] == Sent(id) ==> l == i)
  }

  lemma {:induction false} IdsAreFresh<M>(run: seq<Event<M>>)
    requires After(run).Some?
    ensures forall i :: 0 <= i < |run| && (run[i].Sent? || run[i].Taken? || run[i].TimedOut? || run[i].Abandoned?) ==> run[i].id < After(run).value.nextId
    ensures After(run).value.waiting.Some? ==> After(run).value.waiting.value < After(run).value.nextId
    decreases |run|
  {
    if run != [] {
      var n := |run| - 1;
      IdsAreFresh(run[..n]);
      assert forall i :: 0 <= i < n ==> run[i] == run[..n][i];
    }
  }

  lemma {:induction false} WaitingIsOpen<M>(run: seq<Event<M>>) returns (i: nat)
    requires After(run).Some? && After(run).value.waiting.Some?
    ensures Open(run, i, After(run).value.waiting.value)
    decreases |run|
  {
    var n := |run| - 1;
    var before := run[..n];
    assert forall l :: 0 <= l < n ==> run[l] == before[l];
    IdsAreFresh(before);
    if run[n].Sent? {
      i := n;
    } else {
      i := WaitingIsOpen(before);
    }
  }

  // ---------- Answers ----------

  /** An answer is the last message with the identifier of the request that waits, and it is the only end
      that request comes to: late answers to a request that has timed out are never handed out. */
  lemma AnswersMatch<M>(run: seq<Event<M>>, k: nat) returns (i: nat, j: nat)
    requires After(run).Some? && k < |run| && run[k].Taken?
    ensures i < k && run[i] == Sent(run[k].id)
    ensures j < k && Stored(run[..k], j, run[k].id, run[k].msg)
    ensures forall l :: 0 <= l < |run| && l != k ==> !Closes(run[l], run[k].id)
  {
    var id := run[k].id;
    PrefixRuns(run, k);
    PrefixRuns(run, k + 1);
    assert run[..k + 1][..k] == run[..k];
    i := WaitingIsOpen(run[..k]);
    j := PendingWasStored(run[..k], id);
    forall l | 0 <= l < |run| && l != k
      ensures !Closes(run[l], id)
    {
      if l > k {
        ClosedOnce(run, k, l);
      } else {
        assert run[l] == run[..k][l];
      }
    }
  }

  /** A request is closed at most once. */
  lemma ClosedOnce<M>(run: seq<Event<M>>, k: nat, l: nat)
    requires After(run).Some? && k < l < |run| && (run[k].Taken? || run[k].TimedOut? || run[k].Abandoned?)
    ensures !Closes(run[l], run[k].id)
  {
    PrefixRuns(run, l);
    PrefixRuns(run, l + 1);
    assert run[..l + 1][..l] == run[..l] && run[..l][k] == run[k] && Closes(run[..l][k], run[k].id);
    if Closes(run[l], run[k].id) {
      var i := WaitingIsOpen(run[..l]);
      assert false;
    }
  }

  /** The server only ever answers: every message carries the identifier of a request sent before. */
  ghost predicate AnswersOnly<M>(run: seq<Event<M>>) {
    forall j :: 0 <= j < |run| && run[j].Received? ==> exists i :: 0 <= i < j && run[i] == Sent(Narrow(run[j].wide))
  }

  /** If the server speaks only when spoken to, an answer was received after its request was sent. */
  lemma AnswersFollow<M>(run: seq<Event<M>>, k: nat) returns (i: nat, j: nat)
    requires After(run).Some? && k < |run| && run[k].Taken? && AnswersOnly(run)
    ensures i < j < k && run[i] == Sent(run[k].id) && Stored(run[..k], j, run[k].id, run[k].msg)
  {
    var i0;
    i0, j := AnswersMatch(run, k);
    assert run[j] == run[..k][j];
    i :| 0 <= i < j && run[i] == Sent(Narrow(run[j].wide));
  }

  /** Otherwise a message of the server's own, say a request with the identifier that comes next, is taken
      for the answer to a request that is sent only later. */
  lemma EarlyMessageIsTaken<M>(msg: M)
    ensures After([Received(1, msg), Sent(1), Taken(1, msg)]).Some?
  {
    var run := [Received(1, msg), Sent(1), Taken(1, msg)];
    var s0: State<M> := State(1, map[], None);
    assert run[..0] == [] && run[..1] == [Received(1, msg)] && run[..2] == [Received(1, msg), Sent(1)];
    assert run[..1][..0] == [] && run[..2][..1] == run[..1] && Narrow(1) == 1;
    assert After(run[..1]) == Some(State(1, map[1 := msg], None));
    assert After(run[..2]) == Some(State(2, map[1 := msg], Some(1)));
  }

  /** What was stored and not touched since is in the table. */
  lemma {:induction false} StoredIsPending<M>(run: seq<Event<M>>, j: nat, id: int, msg: M)
    requires After(run).Some? && Stored(run, j, id, msg)
    ensures id in After(run).value.pending && After(run).value.pending[id] == msg
    decreases |run|
  {
    var n := |run| - 1;
    if j < n {
      assert !Touches(run[n], id);
      assert forall l :: j < l < n ==> run[..n][l] == run[l];
      StoredIsPending(run[..n], j, id, msg);
    }
  }

  /** The request sent behind `run` is answered, at `k`, by a message that came before it, at `j`. */
  ghost predicate AnsweredTooEarly<M>(run: seq<Event<M>>, id: int, whole: seq<Event<M>>, k: nat, j: nat) {
    && After(whole).Some? && run + [Sent(id)] <= whole && |run| < k < |whole|
    && whole[k].Taken? && whole[k].id == id && j < |run| && Stored(whole[..k], j, id, whole[k].msg)
  }

  /** That can happen exactly if, when the request is sent, the table already holds its identifier. */
  lemma EarlyExactlyIfPending<M(!new)>(run: seq<Event<M>>)
    requires After(run).Some? && After(run).value.waiting.None?
    ensures var s := After(run).value;
            s.nextId in s.pending <==> exists whole: seq<Event<M>>, k: nat, j: nat :: AnsweredTooEarly(run, s.nextId, whole, k, j)
  {
    var s := After(run).value;
    if s.nextId in s.pending {
      var j := PendingWasStored(run, s.nextId);
      TakenAtOnce(run, j);
    }
    if whole: seq<Event<M>>, k: nat, j: nat :| AnsweredTooEarly(run, s.nextId, whole, k, j) {
      PrefixRuns(whole, |run|);
      assert whole[..|run|] == run by { assert (run + [Sent(s.nextId)])[..|run|] == run; }
      assert Stored(run, j, s.nextId, whole[k].msg) by {
        assert forall l :: 0 <= l < |run| ==> whole[..k][l] == run[l];
      }
      StoredIsPending(run, j, s.nextId, whole[k].msg);
    }
  }

  lemma TakenAtOnce<M(!new)>(run: seq<Event<M>>, j: nat)
    requires After(run).Some? && After(run).value.waiting.None?
    requires var s := After(run).value; s.nextId in s.pending && Stored(run, j, s.nextId, s.pending[s.nextId])
    ensures var s := After(run).value;
            var whole := run + [Sent(s.nextId)] + [Taken(s.nextId, s.pending[s.nextId])];
            AnsweredTooEarly(run, s.nextId, whole, |run| + 1, j)
  {
    var s := After(run).value;
    var sent := run + [Sent(s.nextId)];
    var whole := sent + [Taken(s.nextId, s.pending[s.nextId])];
    assert sent[..|run|] == run && whole[..|sent|] == sent;
    assert After(sent) == Some(State(s.nextId + 1, s.pending, Some(s.nextId)));
    assert forall l :: 0 <= l < |run| ==> sent[l] == run[l];
  }

  /** Clearing the entry at a timeout does not keep a late answer out: it is stored and stays. */
  lemma {:induction false} LateAnswersStay<M>(run: seq<Event<M>>, k: nat, l: nat)
    requires After(run).Some? && k < l < |run| && run[k].TimedOut? && run[l].Received? && Narrow(run[l].wide) == run[k].id
    ensures run[k].id in After(run).value.pending
    decreases |run|
  {
    var n := |run| - 1;
    if l < n {
      LateAnswersStay(run[..n], k, l);
      ClosedOnce(run, k, n);
    }
  }
}
