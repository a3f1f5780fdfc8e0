/** What the protocol gets done: with nothing under way all is decided, and one execution runs it all. */
module EpaxosProgress {
  import opened EpaxosTypes
  import opened EpaxosScan
  import opened EpaxosHandlers
  import opened EpaxosDemands
  import opened EpaxosExecution
  import opened EpaxosProtocol
  import opened EpaxosInstance
  import opened EpaxosSafety
  import opened EpaxosTheorems
  import opened EpaxosConflicts
  import opened EpaxosDecision
  import opened EpaxosConvergence

  // ---- Nothing under way ----------------------------------------------------------------------

  // No message waits on a link, and no launched commit has still to run.
  ghost predicate NothingUnderWay(g: System) {
    && g.Valid()
    && (forall p: nat, q: nat :: p < g.n && q < g.n ==> g.reps[p].out[q] == [])
    && forall p: nat, slot :: p < g.n ==> slot !in g.reps[p].pending
  }

  lemma QuietView(n: nat, lead: nat, slot: nat, v: View, p: nat)
    requires Shape(n, lead, slot, v) && v.born.Some? && v.pend == 0 && p < n
    requires forall q: nat :: q < n ==> Quiet(v, q)
    ensures v.entries[p].Some? && v.entries[p].value.Decided()
  {
    QuietLeader(n, lead, slot, v);
    if p != lead {
      assert Quiet(v, p);
      Standing(n, lead, slot, v, p);
    }
  }

  lemma QuietLeader(n: nat, lead: nat, slot: nat, v: View)
    requires Shape(n, lead, slot, v) && v.born.Some? && v.pend == 0
    requires forall q: nat :: q < n ==> Quiet(v, q)
    ensures v.entries[lead].Some? && v.entries[lead].value.Decided()
  {
    PeerCount(n, lead);
    assert Counters(n, lead, v) == PeerSet(n, lead);
  }

  // With nothing under way, every instance ever proposed is decided at every replica.
  lemma QuietIsDecided(g: System, r: nat, id: Id)
    requires Inv(g) && NothingUnderWay(g) && r < g.n && id.lead < g.n && (id.lead, id.slot) in g.born
    ensures At(g, r, id).Some? && At(g, r, id).value.Decided()
  {
    InvAt(g, id.lead, id.slot);
    var v := ViewOf(g, id.lead, id.slot);
    forall q: nat | q < g.n ensures Quiet(v, q) {
      assert g.reps[id.lead].out[q] == [] && g.reps[q].out[id.lead] == [];
    }
    assert v.entries[r] == At(g, r, id);
    QuietView(g.n, id.lead, id.slot, v, r);
  }

  // ---- Dependencies are proposals -------------------------------------------------------------

  lemma {:induction false} BornStays(n: nat, run: seq<System>, evs: seq<Event>, i: nat, k: nat, id: Id)
    requires IsRun(n, run, evs) && i <= k < |run| && id.lead < n && BornOf(run[i], id).Some?
    ensures BornOf(run[k], id).Some?
    decreases k - i
  {
    if i < k {
      assert StepOf(run[i], evs[i], run[i + 1]);
      BornStays(n, run, evs, i + 1, k, id);
    }
  }

  // In every state of a run, every dependency of every logged record names a proposed instance.
  lemma DepsAreProposed(n: nat, run: seq<System>, evs: seq<Event>, k: nat, p: nat, id: Id, r: nat)
    requires IsRun(n, run, evs) && k < |run| && p < n && id.lead < n && r < n
    requires run[k].Valid() && run[k].n == n && At(run[k], p, id).Some?
    ensures |At(run[k], p, id).value.deps| == n
    ensures var d := At(run[k], p, id).value.deps[r]; d == -1 || (d >= 0 && (r, d) in run[k].born)
  {
    RunInv(n, run, evs, k);
    EntryPlaced(run[k], p, id);
    var c := DepPart(r);
    var d := Of(At(run[k], p, id).value, c);
    assert HasPart(At(run[k], p, id), n, c, d);
    var i, q := KnownComes(n, run, evs, k, id, c, d);
    if d != -1 {
      RunInv(n, run, evs, i);
      assert Chosen(run[i].reps[q].logs, At(run[i + 1], q, id).value.ops, r, d);
      EntryPlaced(run[i], q, Id(r, d));
      BornStays(n, run, evs, i, k, Id(r, d));
    }
  }

  // ---- Execution completes --------------------------------------------------------------------

  // Every committed instance of the log has its dependencies decided in it.
  ghost predicate AllReady(logs: Log) {
    forall v :: ValidNode(logs, v) && Inst(logs, v).state.Committed? ==> DepsReady(logs, Inst(logs, v).deps)
  }

  ghost predicate RanAmong(s: Replica, p: Progress, ns: seq<Node>) {
    && p.s.Valid() && OnlyRan(s, p.s) && !p.stopped
    && forall v :: v in ns && ValidNode(s.logs, v) && Inst(s.logs, v).Decided() ==> IsExecuted(p.s.logs, v)
  }

  lemma ReadyStays(s: Replica, t: Replica)
    requires OnlyRan(s, t) && AllReady(s.logs)
    ensures AllReady(t.logs)
  {
    forall v | ValidNode(t.logs, v) && Inst(t.logs, v).state.Committed?
      ensures DepsReady(t.logs, Inst(t.logs, v).deps)
    {
      assert EntryRan(Entry(s.logs, v.rep, v.slot), Entry(t.logs, v.rep, v.slot));
      assert ValidNode(s.logs, v) && Inst(s.logs, v) == Inst(t.logs, v);
      DepsStayReady(s, t, Inst(s.logs, v).deps);
    }
  }

  lemma DepsStayReady(s: Replica, t: Replica, deps: seq<int>)
    requires OnlyRan(s, t) && DepsReady(s.logs, deps)
    ensures DepsReady(t.logs, deps)
  {
    forall rep: nat | rep < |deps| && deps[rep] >= 0 ensures DepReady(t.logs, rep, deps[rep]) {
      assert DepReady(s.logs, rep, deps[rep]);
      assert EntryRan(Entry(s.logs, rep, deps[rep]), Entry(t.logs, rep, deps[rep]));
    }
  }

  lemma VisitCompletes(s: Replica, p: Progress, ns: seq<Node>, v: Node)
    requires s.Valid() && RanAmong(s, p, ns) && AllReady(s.logs)
    ensures RanAmong(s, Visit(p, v), ns + [v])
  {
    var q := Visit(p, v);
    ReadyStays(s, p.s);
    VisitRan(p, v);
    OnlyRanTransitive(s, p.s, q.s);
    forall u | u in ns + [v] && ValidNode(s.logs, u) && Inst(s.logs, u).Decided() ensures IsExecuted(q.s.logs, u) {
      assert EntryRan(Entry(s.logs, u.rep, u.slot), Entry(p.s.logs, u.rep, u.slot));
      assert EntryRan(Entry(p.s.logs, u.rep, u.slot), Entry(q.s.logs, u.rep, u.slot));
      VisitExecutes(p, v);
    }
  }

  lemma VisitExecutes(p: Progress, v: Node)
    requires p.s.Valid() && !p.stopped && AllReady(p.s.logs)
    ensures !Visit(p, v).stopped
    ensures ValidNode(p.s.logs, v) && Inst(p.s.logs, v).Decided() ==> IsExecuted(Visit(p, v).s.logs, v)
  {
  }

  lemma {:induction false} ComponentCompletes(s: Replica, p: Progress, ns: seq<Node>, scc: seq<Node>, i: nat)
    requires s.Valid() && RanAmong(s, p, ns) && AllReady(s.logs) && i <= |scc|
    ensures RanAmong(s, VisitAll(p, scc, i), ns + scc[..i])
  {
    if i > 0 {
      ComponentCompletes(s, p, ns, scc, i - 1);
      VisitCompletes(s, VisitAll(p, scc, i - 1), ns + scc[..i - 1], scc[i - 1]);
      assert ns + scc[..i] == ns + scc[..i - 1] + [scc[i - 1]];
    } else {
      assert ns + scc[..0] == ns;
    }
  }

  function NodesOf(order: seq<seq<Node>>, c: nat): seq<Node>
    requires c <= |order|
  {
    if c == 0 then [] else NodesOf(order, c - 1) + order[c - 1]
  }

  lemma {:induction false} InNodesOf(order: seq<seq<Node>>, c: nat, k: nat, v: Node)
    requires k < c <= |order| && v in order[k]
    ensures v in NodesOf(order, c)
  {
    if k < c - 1 {
      InNodesOf(order, c - 1, k, v);
    }
  }

  lemma {:induction false} OrderCompletes(s: Replica, order: seq<seq<Node>>, c: nat)
    requires s.Valid() && AllReady(s.logs) && c <= |order|
    ensures RanAmong(s, ExecuteTo(s, order, c), NodesOf(order, c))
  {
    if c > 0 {
      OrderCompletes(s, order, c - 1);
      var scc := order[c - 1];
      ComponentCompletes(s, ExecuteTo(s, order, c - 1), NodesOf(order, c - 1), scc, |scc|);
      assert scc[..|scc|] == scc;
    }
  }

  // A call of executeSome that finds the dependencies of all committed instances decided runs every
  // committed instance it comes to, in whatever order.
  lemma ExecutionCompletes(s: Replica, order: seq<seq<Node>>, k: nat, v: Node)
    requires s.Valid() && AllReady(s.logs) && k < |order| && v in order[k]
    requires ValidNode(s.logs, v) && Inst(s.logs, v).Decided()
    ensures IsExecuted(ExecuteSome(s, order).logs, v)
  {
    OrderCompletes(s, order, |order|);
    InNodesOf(order, |order|, k, v);
  }

  // ---- Everything proposed is run -------------------------------------------------------------

  lemma QuietIsReady(n: nat, run: seq<System>, evs: seq<Event>, r: nat)
    requires IsRun(n, run, evs) && r < n && NothingUnderWay(run[|evs|])
    ensures run[|evs|].Valid() && run[|evs|].n == n && AllReady(run[|evs|].reps[r].logs)
  {
    var g := run[|evs|];
    RunInv(n, run, evs, |evs|);
    var logs := g.reps[r].logs;
    forall v, rep | ValidNode(logs, v) && 0 <= rep < |Inst(logs, v).deps| && Inst(logs, v).deps[rep] >= 0
      ensures DepReady(logs, rep, Inst(logs, v).deps[rep])
    {
      QuietDep(n, run, evs, r, v, rep);
    }
  }

  lemma QuietDep(n: nat, run: seq<System>, evs: seq<Event>, r: nat, v: Node, rep: int)
    requires IsRun(n, run, evs) && r < n && NothingUnderWay(run[|evs|]) && run[|evs|].n == n
    requires ValidNode(run[|evs|].reps[r].logs, v)
    requires 0 <= rep < |Inst(run[|evs|].reps[r].logs, v).deps| && Inst(run[|evs|].reps[r].logs, v).deps[rep] >= 0
    ensures DepReady(run[|evs|].reps[r].logs, rep, Inst(run[|evs|].reps[r].logs, v).deps[rep])
  {
    var g, id := run[|evs|], Id(v.rep, v.slot);
    RunInv(n, run, evs, |evs|);
    EntryPlaced(g, r, id);
    DepsAreProposed(n, run, evs, |evs|, r, id, rep);
    QuietIsDecided(g, r, Id(rep, Inst(g.reps[r].logs, v).deps[rep]));
  }

  // Once nothing is under way, one call of executeSome over all instances, in any order, leaves every
  // instance ever proposed executed at the replica.
  lemma EverythingRuns(n: nat, run: seq<System>, evs: seq<Event>, r: nat, order: seq<seq<Node>>, id: Id, k: nat)
    requires IsRun(n, run, evs) && r < n && id.lead < n && NothingUnderWay(run[|evs|])
    requires (id.lead, id.slot) in run[|evs|].born && k < |order| && Node(id.lead, id.slot) in order[k]
    ensures run[|evs|].Valid() && run[|evs|].n == n
    ensures IsExecuted(ExecuteSome(run[|evs|].reps[r], order).logs, Node(id.lead, id.slot))
  {
    RunInv(n, run, evs, |evs|);
    QuietIsReady(n, run, evs, r);
    QuietIsDecided(run[|evs|], r, id);
    ExecutionCompletes(run[|evs|].reps[r], order, k, Node(id.lead, id.slot));
  }
}
