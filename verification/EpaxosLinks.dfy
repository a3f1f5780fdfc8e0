/** Dependencies with a smaller Seq run first at every replica; when that settles every conflict, replicas converge. */
module EpaxosLinks {
  import opened Options
  import opened EpaxosTypes
  import opened EpaxosHandlers
  import opened EpaxosExecution
  import opened EpaxosProtocol
  import opened EpaxosSafety
  import opened EpaxosTheorems
  import opened EpaxosOrder
  import opened EpaxosConvergence

  // What executeSome sorts a component into: by Seq, ties in any order.
  predicate SortedBySeq(logs: Log, scc: seq<Node>) {
    forall i, j :: 0 <= i < j < |scc| && ValidNode(logs, scc[i]) && ValidNode(logs, scc[j]) ==>
        !Later(logs, scc[j], scc[i])
  }

  ghost predicate GoodOrder(logs: Log, order: seq<seq<Node>>) {
    DependencyOrder(logs, order) && forall c :: 0 <= c < |order| ==> SortedBySeq(logs, order[c])
  }

  // x depends on the instance at d.
  predicate DependsOn(x: Instance, d: Node) {
    0 <= d.rep < |x.deps| && x.deps[d.rep] == d.slot && d.slot >= 0
  }

  predicate IsDecided(logs: Log, v: Node) {
    ValidNode(logs, v) && Inst(logs, v).Decided()
  }

  // The instance at w depends on the one at v, which has the smaller Seq.
  predicate Linked(logs: Log, v: Node, w: Node) {
    ValidNode(logs, v) && ValidNode(logs, w) && DependsOn(Inst(logs, w), v) && Later(logs, v, w)
  }

  // ---- One call of executeSome ----------------------------------------------------------------

  // When the i-th node of component c runs, a dependency with a smaller Seq has been executed.
  lemma LinkRunsFirst(s: Replica, order: seq<seq<Node>>, c: nat, i: nat, d: Node)
    requires s.Valid() && c < |order| && i < |order[c]| && GoodOrder(s.logs, order)
    requires Runs(Before(s, order, c, i), order[c][i])
    requires DependsOn(Inst(Before(s, order, c, i).s.logs, order[c][i]), d)
    ensures IsDecided(Before(s, order, c, i).s.logs, d)
    ensures Later(Before(s, order, c, i).s.logs, d, order[c][i]) ==> IsExecuted(Before(s, order, c, i).s.logs, d)
  {
    var p, v := Before(s, order, c, i), order[c][i];
    DependenciesFirst(s, order, c, i, d.rep);
    if Later(p.s.logs, d, v) && d in order[c] {
      var j :| 0 <= j < |order[c]| && order[c][j] == d;
      BeforeRan(s, order, c, i);
      assert EntryRan(Entry(s.logs, v.rep, v.slot), Entry(p.s.logs, v.rep, v.slot));
      assert EntryRan(Entry(s.logs, d.rep, d.slot), Entry(p.s.logs, d.rep, d.slot));
      assert SortedBySeq(s.logs, order[c]);
      ComponentSettles(ExecuteTo(s, order, c), order[c], i);
      if j < i {
        assert order[c][..i][j] == d;
      }
    }
  }

  // Of the instances run so far, each had its dependencies decided, and those with a smaller Seq
  // executed: before the call, or earlier in it.
  ghost predicate LinksFirst(s: Replica, trace: seq<Node>) {
    forall q, d :: 0 <= q < |trace| && ValidNode(s.logs, trace[q]) && DependsOn(Inst(s.logs, trace[q]), d) ==>
      LinkKept(s, trace[..q], trace[q], d)
  }

  ghost predicate LinkKept(s: Replica, before: seq<Node>, v: Node, d: Node) {
    IsDecided(s.logs, d) && (Linked(s.logs, d, v) ==> IsExecuted(s.logs, d) || d in before)
  }

  lemma LinksExtend(s: Replica, trace: seq<Node>, v: Node)
    requires LinksFirst(s, trace)
    requires ValidNode(s.logs, v) ==> forall d :: DependsOn(Inst(s.logs, v), d) ==> LinkKept(s, trace, v, d)
    ensures LinksFirst(s, trace + [v])
  {
    var all := trace + [v];
    forall q, d | 0 <= q < |all| && ValidNode(s.logs, all[q]) && DependsOn(Inst(s.logs, all[q]), d)
      ensures LinkKept(s, all[..q], all[q], d)
    {
      if q < |trace| {
        assert all[q] == trace[q] && all[..q] == trace[..q];
      } else {
        assert all[..q] == trace;
      }
    }
  }

  lemma VisitLinks(s: Replica, order: seq<seq<Node>>, c: nat, i: nat)
    requires s.Valid() && c < |order| && i < |order[c]| && GoodOrder(s.logs, order)
    requires LinksFirst(s, Before(s, order, c, i).trace)
    ensures LinksFirst(s, Visit(Before(s, order, c, i), order[c][i]).trace)
  {
    var p, v := Before(s, order, c, i), order[c][i];
    if Runs(p, v) {
      BeforeTrace(s, order, c, i);
      if ValidNode(s.logs, v) {
        forall d | DependsOn(Inst(s.logs, v), d) ensures LinkKept(s, p.trace, v, d) {
          RunsLinked(s, order, c, i, d);
        }
      }
      LinksExtend(s, p.trace, v);
    }
  }

  lemma RunsLinked(s: Replica, order: seq<seq<Node>>, c: nat, i: nat, d: Node)
    requires s.Valid() && c < |order| && i < |order[c]| && GoodOrder(s.logs, order)
    requires TraceOf(s, Before(s, order, c, i)) && Runs(Before(s, order, c, i), order[c][i])
    requires ValidNode(s.logs, order[c][i]) && DependsOn(Inst(s.logs, order[c][i]), d)
    ensures IsDecided(s.logs, d)
    ensures Linked(s.logs, d, order[c][i]) ==> IsExecuted(s.logs, d) || d in Before(s, order, c, i).trace
  {
    var p, v := Before(s, order, c, i), order[c][i];
    TraceEntries(s, p, v);
    LinkRunsFirst(s, order, c, i, d);
    TraceEntries(s, p, d);
    BeforeRan(s, order, c, i);
    assert EntryRan(Entry(s.logs, d.rep, d.slot), Entry(p.s.logs, d.rep, d.slot));
  }

  lemma BeforeTrace(s: Replica, order: seq<seq<Node>>, c: nat, i: nat)
    requires s.Valid() && c < |order| && i < |order[c]|
    ensures TraceOf(s, Before(s, order, c, i))
  {
    ExecuteTrace(s, order, c);
    VisitAllTrace(s, ExecuteTo(s, order, c), order[c], i);
  }

  lemma {:induction false} ComponentLinks(s: Replica, order: seq<seq<Node>>, c: nat, i: nat)
    requires s.Valid() && c < |order| && i <= |order[c]| && GoodOrder(s.logs, order)
    requires LinksFirst(s, ExecuteTo(s, order, c).trace)
    ensures LinksFirst(s, VisitAll(ExecuteTo(s, order, c), order[c], i).trace)
  {
    if i > 0 {
      ComponentLinks(s, order, c, i - 1);
      VisitLinks(s, order, c, i - 1);
    }
  }

  lemma {:induction false} ExecuteLinks(s: Replica, order: seq<seq<Node>>, c: nat)
    requires s.Valid() && c <= |order| && GoodOrder(s.logs, order)
    ensures LinksFirst(s, ExecuteTo(s, order, c).trace)
  {
    if c > 0 {
      ExecuteLinks(s, order, c - 1);
      ComponentLinks(s, order, c - 1, |order[c - 1]|);
    }
  }

  // ---- Along a run ----------------------------------------------------------------------------

  // Every execution of the run takes components as the program does.
  ghost predicate Disciplined(run: seq<System>, evs: seq<Event>) {
    forall k :: 0 <= k < |evs| && k < |run| ==> OrderedStep(run[k], evs[k])
  }

  ghost predicate OrderedStep(g: System, ev: Event) {
    ev.ExecuteAt? && ev.r < |g.reps| ==> GoodOrder(g.reps[ev.r].logs, ev.order)
  }

  // In the list, every instance comes after those it is linked to.
  ghost predicate LinkOrdered(logs: Log, ns: seq<Node>) {
    forall q, d :: 0 <= q < |ns| && ValidNode(logs, ns[q]) && DependsOn(Inst(logs, ns[q]), d) ==>
      RunAfter(logs, ns, q, d)
  }

  ghost predicate RunAfter(logs: Log, ns: seq<Node>, q: int, d: Node) {
    0 <= q < |ns| && IsDecided(logs, d) && (Linked(logs, d, ns[q]) ==> d in ns[..q])
  }

  // Decisions stay.
  ghost predicate DecisionsStay(logs: Log, logs': Log) {
    forall v :: IsDecided(logs, v) ==> IsDecided(logs', v) && SameDecision(Inst(logs, v), Inst(logs', v))
  }

  lemma LinkOrderStays(logs: Log, logs': Log, ns: seq<Node>)
    requires LinkOrdered(logs, ns) && DecisionsStay(logs, logs') && forall v :: v in ns ==> IsDecided(logs, v)
    ensures LinkOrdered(logs', ns)
  {
    forall q, d | 0 <= q < |ns| && ValidNode(logs', ns[q]) && DependsOn(Inst(logs', ns[q]), d)
      ensures RunAfter(logs', ns, q, d)
    {
      assert ns[q] in ns;
      assert RunAfter(logs, ns, q, d);
    }
  }

  lemma StepDecisionsStay(g: System, ev: Event, r: nat)
    requires Inv(g) && Enabled(g, ev) && r < g.n
    ensures DecisionsStay(g.reps[r].logs, Next(g, ev).reps[r].logs)
  {
    forall v | IsDecided(g.reps[r].logs, v)
      ensures var logs' := Next(g, ev).reps[r].logs;
        IsDecided(logs', v) && SameDecision(Inst(g.reps[r].logs, v), Inst(logs', v))
    {
      DecisionStays(g, ev, r, v);
    }
  }

  lemma DecisionStays(g: System, ev: Event, r: nat, v: Node)
    requires Inv(g) && Enabled(g, ev) && r < g.n && IsDecided(g.reps[r].logs, v)
    ensures var logs' := Next(g, ev).reps[r].logs;
      IsDecided(logs', v) && SameDecision(Inst(g.reps[r].logs, v), Inst(logs', v))
  {
    assert Held(g, r, v.rep, v.slot) == Some(Inst(g.reps[r].logs, v));
    StepAdvances(g, ev, r, v.rep, v.slot);
  }

  lemma LinkOrderGrows(s: Replica, trace: seq<Node>, ns: seq<Node>)
    requires Ledger(s, ns) && LinksFirst(s, trace) && LinkOrdered(s.logs, ns)
    ensures LinkOrdered(s.logs, ns + trace)
  {
    var all := ns + trace;
    forall q, d | 0 <= q < |all| && ValidNode(s.logs, all[q]) && DependsOn(Inst(s.logs, all[q]), d)
      ensures RunAfter(s.logs, all, q, d)
    {
      if q < |ns| {
        StillInOrder(s.logs, ns, trace, q, d);
      } else {
        AppendedInOrder(s, trace, ns, q - |ns|, d);
      }
    }
  }

  lemma StillInOrder(logs: Log, ns: seq<Node>, more: seq<Node>, q: nat, d: Node)
    requires LinkOrdered(logs, ns) && q < |ns| && ValidNode(logs, ns[q]) && DependsOn(Inst(logs, ns[q]), d)
    ensures RunAfter(logs, ns + more, q, d)
  {
    assert (ns + more)[..q] == ns[..q];
    assert RunAfter(logs, ns, q, d);
  }

  lemma AppendedInOrder(s: Replica, trace: seq<Node>, ns: seq<Node>, k: nat, d: Node)
    requires Ledger(s, ns) && LinksFirst(s, trace) && k < |trace|
    requires ValidNode(s.logs, trace[k]) && DependsOn(Inst(s.logs, trace[k]), d)
    ensures RunAfter(s.logs, ns + trace, |ns| + k, d)
  {
    var all, q := ns + trace, |ns| + k;
    assert all[q] == trace[k] && all[..q] == ns + trace[..k];
    assert LinkKept(s, trace[..k], trace[k], d);
  }

  // Whatever the replica ran, it ran after everything linked before it.
  lemma {:induction false} HistoryIsLinkOrdered(n: nat, run: seq<System>, evs: seq<Event>, r: nat, k: nat)
    requires IsRun(n, run, evs) && Disciplined(run, evs) && r < n && k <= |evs|
    ensures run[k].Valid() && run[k].n == n && LinkOrdered(run[k].reps[r].logs, History(run, evs, r, k))
    decreases k
  {
    if k > 0 {
      HistoryIsLinkOrdered(n, run, evs, r, k - 1);
      HistoryIsLedger(n, run, evs, r, k - 1);
      LinkOrderAlong(n, run, evs, r, k);
    } else {
      RunValid(n, run, evs, 0);
    }
  }

  lemma LinkOrderAlong(n: nat, run: seq<System>, evs: seq<Event>, r: nat, k: nat)
    requires IsRun(n, run, evs) && Disciplined(run, evs) && r < n && 0 < k <= |evs|
    requires run[k - 1].Valid() && run[k - 1].n == n
    requires Ledger(run[k - 1].reps[r], History(run, evs, r, k - 1))
    requires LinkOrdered(run[k - 1].reps[r].logs, History(run, evs, r, k - 1))
    ensures run[k].Valid() && run[k].n == n && LinkOrdered(run[k].reps[r].logs, History(run, evs, r, k))
  {
    var g, ev := run[k - 1], evs[k - 1];
    RunInv(n, run, evs, k - 1);
    assert StepOf(g, ev, run[k]) && OrderedStep(g, ev);
    LinkOrderStep(g, ev, r, History(run, evs, r, k - 1));
  }

  lemma LinkOrderStep(g: System, ev: Event, r: nat, ns: seq<Node>)
    requires Inv(g) && Enabled(g, ev) && OrderedStep(g, ev) && r < g.n
    requires Ledger(g.reps[r], ns) && LinkOrdered(g.reps[r].logs, ns)
    ensures LinkOrdered(Next(g, ev).reps[r].logs, RunSince(g, ev, r, ns))
  {
    var s, all := g.reps[r], ns;
    forall v | v in ns ensures IsDecided(s.logs, v) {
      assert IsExecuted(s.logs, v);
    }
    if ev.ExecuteAt? && ev.r == r {
      var p := ExecuteTo(s, ev.order, |ev.order|);
      ExecuteTrace(s, ev.order, |ev.order|);
      ExecuteLinks(s, ev.order, |ev.order|);
      LinkOrderGrows(s, p.trace, ns);
      all := ns + p.trace;
      forall v | v in p.trace ensures IsDecided(s.logs, v) {
      }
    }
    StepDecisionsStay(g, ev, r);
    LinkOrderStays(s.logs, Next(g, ev).reps[r].logs, all);
  }

  // ---- Convergence ----------------------------------------------------------------------------

  // Every instance on the path is linked to the one after it.
  ghost predicate Chain(logs: Log, path: seq<Node>) {
    forall k :: 0 < k < |path| ==> Linked(logs, path[k - 1], path[k])
  }

  // Links lead from v to w, through any number of instances.
  ghost predicate Reaches(logs: Log, v: Node, w: Node) {
    exists path :: |path| >= 2 && path[0] == v && path[|path| - 1] == w && Chain(logs, path)
  }

  // Of any two executed instances that share a key, links lead from one to the other.
  ghost predicate ConflictsChained(logs: Log) {
    forall v, w ::
      (IsExecuted(logs, v) && IsExecuted(logs, w) && v != w && Conflict(Inst(logs, v).ops, Inst(logs, w).ops))
      ==> Reaches(logs, v, w) || Reaches(logs, w, v)
  }

  // Two replicas that executed the same instances hold the same data and have answered every read
  // alike, if of any two of them that share a key one depends on the other through a chain of
  // dependencies along which the Seqs rise.
  lemma LinkedReplicasConverge(n: nat, run: seq<System>, evs: seq<Event>, r: nat, r': nat)
    requires IsRun(n, run, evs) && Disciplined(run, evs) && SameExecuted(run[|evs|], r, r')
    requires ConflictsChained(run[|evs|].reps[r].logs)
    ensures var g := run[|evs|];
      && g.reps[r].kvmap == g.reps[r'].kvmap
      && forall v :: IsExecuted(g.reps[r].logs, v) ==>
           ValidNode(g.reps[r'].logs, v) && Inst(g.reps[r].logs, v).ops == Inst(g.reps[r'].logs, v).ops
  {
    var g := run[|evs|];
    RunInv(n, run, evs, |evs|);
    var logs, logs' := g.reps[r].logs, g.reps[r'].logs;
    HistoryIsLedger(n, run, evs, r, |evs|);
    HistoryIsLedger(n, run, evs, r', |evs|);
    HistoryIsLinkOrdered(n, run, evs, r, |evs|);
    HistoryIsLinkOrdered(n, run, evs, r', |evs|);
    forall v | IsExecuted(logs, v) ensures SameRecord(logs, logs', v) {
      AgreeOn(g, r, r', v);
    }
    LinksSettleOrder(g.reps[r], g.reps[r'], History(run, evs, r, |evs|), History(run, evs, r', |evs|));
    Convergence(n, run, evs, r, r');
  }

  lemma LinksSettleOrder(s: Replica, s': Replica, xs: seq<Node>, ys: seq<Node>)
    requires Ledger(s, xs) && Ledger(s', ys) && LinkOrdered(s.logs, xs) && LinkOrdered(s'.logs, ys)
    requires ConflictsChained(s.logs) && forall v :: IsExecuted(s.logs, v) ==> SameRecord(s.logs, s'.logs, v)
    ensures SameOrder(s.logs, xs, ys)
  {
    forall i, j, p, q | 0 <= i < j < |xs| && 0 <= p < |ys| && 0 <= q < |ys| && ys[p] == xs[i] && ys[q] == xs[j]
                        && ValidNode(s.logs, xs[i]) && ValidNode(s.logs, xs[j])
                        && Conflict(Inst(s.logs, xs[i]).ops, Inst(s.logs, xs[j]).ops) ensures p < q
    {
      LinkedPair(s, s', xs, ys, i, j, p, q);
    }
  }

  lemma LinkedComesBefore(logs: Log, ns: seq<Node>, q: nat, d: Node)
    requires LinkOrdered(logs, ns) && q < |ns|
    ensures Linked(logs, d, ns[q]) ==> d in ns[..q]
  {
    assert Linked(logs, d, ns[q]) ==> RunAfter(logs, ns, q, d);
  }

  // An instance comes after everything a chain leads from.
  lemma {:induction false} ChainComesBefore(logs: Log, ns: seq<Node>, path: seq<Node>, q: nat)
    requires LinkOrdered(logs, ns) && q < |ns| && |path| >= 2 && Chain(logs, path) && path[|path| - 1] == ns[q]
    ensures path[0] in ns[..q] && forall v :: v in path ==> v in ns
    decreases |path|
  {
    var k := |path| - 1;
    LinkedComesBefore(logs, ns, q, path[k - 1]);
    assert path[k - 1] in ns[..q];
    var j :| 0 <= j < q && ns[j] == path[k - 1];
    assert path == path[..k] + [path[k]];
    if k > 1 {
      ChainComesBefore(logs, ns, path[..k], j);
    } else {
      assert path == [path[0], path[1]];
    }
  }

  lemma ReachedComesBefore(logs: Log, ns: seq<Node>, q: nat, v: Node)
    requires LinkOrdered(logs, ns) && q < |ns| && Reaches(logs, v, ns[q])
    ensures v in ns[..q]
  {
    var path :| |path| >= 2 && path[0] == v && path[|path| - 1] == ns[q] && Chain(logs, path);
    ChainComesBefore(logs, ns, path, q);
  }

  // A chain that ends in what both logs have run is a chain in both.
  lemma ReachesInBoth(s: Replica, s': Replica, xs: seq<Node>, j: nat, v: Node)
    requires Ledger(s, xs) && LinkOrdered(s.logs, xs) && j < |xs| && Reaches(s.logs, v, xs[j])
    requires forall u :: IsExecuted(s.logs, u) ==> SameRecord(s.logs, s'.logs, u)
    ensures Reaches(s'.logs, v, xs[j])
  {
    var path :| |path| >= 2 && path[0] == v && path[|path| - 1] == xs[j] && Chain(s.logs, path);
    ChainComesBefore(s.logs, xs, path, j);
    forall k | 0 < k < |path| ensures Linked(s'.logs, path[k - 1], path[k]) {
      assert path[k - 1] in path && path[k] in path;
      assert IsExecuted(s.logs, path[k - 1]) && IsExecuted(s.logs, path[k]);
      assert Linked(s.logs, path[k - 1], path[k]);
    }
    assert Chain(s'.logs, path);
  }

  lemma NotAmongEarlier(ns: seq<Node>, i: nat, j: nat)
    requires i <= j < |ns| && forall a, b :: 0 <= a < b < |ns| ==> ns[a] != ns[b]
    ensures ns[j] !in ns[..i]
  {
  }

  lemma LinkedPair(s: Replica, s': Replica, xs: seq<Node>, ys: seq<Node>, i: nat, j: nat, p: nat, q: nat)
    requires Ledger(s, xs) && Ledger(s', ys) && LinkOrdered(s.logs, xs) && LinkOrdered(s'.logs, ys)
    requires ConflictsChained(s.logs) && forall v :: IsExecuted(s.logs, v) ==> SameRecord(s.logs, s'.logs, v)
    requires i < j < |xs| && p < |ys| && q < |ys| && ys[p] == xs[i] && ys[q] == xs[j]
    requires ValidNode(s.logs, xs[i]) && ValidNode(s.logs, xs[j])
    requires Conflict(Inst(s.logs, xs[i]).ops, Inst(s.logs, xs[j]).ops)
    ensures p < q
  {
    var v, w := xs[i], xs[j];
    NotAmongEarlier(xs, i, j);
    assert v in xs && w in xs && IsExecuted(s.logs, v) && IsExecuted(s.logs, w);
    if Reaches(s.logs, w, v) {
      ReachedComesBefore(s.logs, xs, i, w);
    }
    ReachesInBoth(s, s', xs, j, v);
    ReachedComesBefore(s'.logs, ys, q, v);
    var k :| 0 <= k < q && ys[k] == v;
  }
}
