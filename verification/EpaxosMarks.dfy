/** What a replica remembers of its progress in each row. */
module EpaxosMarks {
  import opened EpaxosTypes
  import opened EpaxosHandlers
  import opened EpaxosExecution
  import opened EpaxosProtocol
  import opened EpaxosSafety
  import opened EpaxosTheorems
  import opened EpaxosConvergence

  // executed[rep] is -1 as long as nothing of the row was run, and then a slot that was, of the
  // greatest Seq among those.
  ghost predicate MarkedLast(s: Replica) {
    s.Valid() && forall rep: nat :: rep < s.n ==> MarkedRow(s.logs, s.executed[rep], rep)
  }

  ghost predicate MarkedRow(logs: Log, mark: int, rep: nat) {
    if mark == -1 then forall k :: !IsExecuted(logs, Node(rep, k))
    else IsExecuted(logs, Node(rep, mark))
         && forall k :: IsExecuted(logs, Node(rep, k)) ==>
              Inst(logs, Node(rep, k)).seqNo <= Inst(logs, Node(rep, mark)).seqNo
  }

  // ---- Execution ------------------------------------------------------------------------------

  lemma RunMarks(s: Replica, v: Node)
    requires MarkedLast(s) && ValidNode(s.logs, v)
    ensures MarkedLast(RunNode(s, v))
  {
    var t := RunNode(s, v);
    forall u ensures IsExecuted(t.logs, u) <==> u == v || IsExecuted(s.logs, u)
      ensures u != v && ValidNode(s.logs, u) ==> ValidNode(t.logs, u) && Inst(t.logs, u) == Inst(s.logs, u)
    {
    }
    assert Inst(t.logs, v).seqNo == Inst(s.logs, v).seqNo;
    forall rep: nat | rep < s.n ensures MarkedRow(t.logs, t.executed[rep], rep) {
      assert MarkedRow(s.logs, s.executed[rep], rep);
    }
  }

  lemma {:induction false} VisitsMark(p: Progress, scc: seq<Node>, i: nat)
    requires MarkedLast(p.s) && i <= |scc|
    ensures MarkedLast(VisitAll(p, scc, i).s)
  {
    if i > 0 {
      VisitsMark(p, scc, i - 1);
      VisitMarks(VisitAll(p, scc, i - 1), scc[i - 1]);
    }
  }

  lemma VisitMarks(p: Progress, v: Node)
    requires MarkedLast(p.s)
    ensures MarkedLast(Visit(p, v).s)
  {
    if ValidNode(p.s.logs, v) {
      RunMarks(p.s, v);
    }
  }

  lemma {:induction false} ExecutionMarks(s: Replica, order: seq<seq<Node>>, c: nat)
    requires MarkedLast(s) && c <= |order|
    ensures MarkedLast(ExecuteTo(s, order, c).s)
  {
    if c > 0 {
      ExecutionMarks(s, order, c - 1);
      VisitsMark(ExecuteTo(s, order, c - 1), order[c - 1], |order[c - 1]|);
    }
  }

  // ---- Along a run ----------------------------------------------------------------------------

  lemma MarksStay(s: Replica, t: Replica)
    requires MarkedLast(s) && t.Valid() && t.n == s.n && t.executed == s.executed
    requires forall v :: IsExecuted(s.logs, v) || IsExecuted(t.logs, v) ==>
      ValidNode(s.logs, v) && ValidNode(t.logs, v) && Inst(t.logs, v) == Inst(s.logs, v)
    ensures MarkedLast(t)
  {
    forall rep: nat | rep < t.n ensures MarkedRow(t.logs, t.executed[rep], rep) {
      assert MarkedRow(s.logs, s.executed[rep], rep);
      forall k ensures IsExecuted(t.logs, Node(rep, k)) <==> IsExecuted(s.logs, Node(rep, k)) {
      }
    }
  }

  lemma HandlersKeepMarks(s: Replica, from: nat, m: Message)
    requires s.Valid() && from < s.n && Accepts(s, from, m)
    ensures Handle(s, from, m).executed == s.executed
  {
  }

  lemma OthersKeepMarks(g: System, ev: Event, r: nat)
    requires g.Valid() && Enabled(g, ev) && r < g.n && !(ev.ExecuteAt? && ev.r == r)
    ensures Next(g, ev).reps[r].executed == g.reps[r].executed
  {
    if ev.Deliver? && r == ev.to {
      HandlersKeepMarks(g.reps[r], ev.from, g.reps[ev.from].out[r][0]);
    }
  }

  lemma StepMarks(g: System, ev: Event, g': System, r: nat)
    requires Inv(g) && StepOf(g, ev, g') && r < g.n && MarkedLast(g.reps[r])
    ensures MarkedLast(g'.reps[r])
  {
    if ev.ExecuteAt? && ev.r == r {
      ExecutionMarks(g.reps[r], ev.order, |ev.order|);
    } else {
      OthersKeepMarks(g, ev, r);
      ExecutedStays(g, ev, r);
      MarksStay(g.reps[r], g'.reps[r]);
    }
  }

  lemma StartMarks(n: nat, r: nat)
    requires n >= 2 && r < n
    ensures Start(n).Valid() && MarkedLast(Start(n).reps[r])
  {
  }

  ghost predicate MarkedAt(n: nat, run: seq<System>, r: nat, k: nat)
    requires k < |run|
  {
    run[k].Valid() && run[k].n == n && r < n && MarkedLast(run[k].reps[r])
  }

  lemma MarksNext(n: nat, run: seq<System>, evs: seq<Event>, r: nat, k: nat)
    requires IsRun(n, run, evs) && k < |evs| && MarkedAt(n, run, r, k)
    ensures MarkedAt(n, run, r, k + 1)
  {
    RunInv(n, run, evs, k);
    assert StepOf(run[k], evs[k], run[k + 1]);
    StepMarks(run[k], evs[k], run[k + 1], r);
  }

  // In every state of a run, every replica's marks say how far it has come.
  lemma MarksAlong(n: nat, run: seq<System>, evs: seq<Event>, r: nat, k: nat)
    requires IsRun(n, run, evs) && r < n && k <= |evs|
    ensures run[k].Valid() && run[k].n == n && MarkedLast(run[k].reps[r])
  {
    RunValid(n, run, evs, 0);
    StartMarks(n, r);
    for j := 0 to k
      invariant MarkedAt(n, run, r, j)
    {
      MarksNext(n, run, evs, r, j);
    }
  }
}
