/** Replicas that ran the same instances, conflicts in the same order, have the same data and answers. */
module EpaxosConvergence {
  import opened Options
  import opened EpaxosTypes
  import opened EpaxosHandlers
  import opened EpaxosExecution
  import opened EpaxosProtocol
  import opened EpaxosInstance
  import opened EpaxosSafety
  import opened EpaxosTheorems
  import opened EpaxosOrder

  // ---- Read values do not matter going in -----------------------------------------------------

  // The instance as it was decided: reads not yet answered.
  function Plain(x: Instance): Instance {
    x.(ops := seq(|x.ops|, i requires 0 <= i < |x.ops| =>
                   if x.ops[i].kind.Read? then x.ops[i].(value := None) else x.ops[i]),
       changed := false, state := Committed)
  }

  lemma PlainIsDecision(x: Instance, y: Instance)
    requires SameDecision(x, y)
    ensures Plain(x) == Plain(y)
  {
    assert Plain(x).ops == Plain(y).ops;
  }

  lemma PlainSameOps(x: Instance)
    ensures SameOps(x.ops, Plain(x).ops)
  {
  }

  lemma {:induction false} SameOpsRunAlike(kv: KV, a: seq<Operation>, b: seq<Operation>)
    requires SameOps(a, b)
    ensures RunOps(kv, a) == RunOps(kv, b)
  {
    if |a| > 0 {
      SameOpsRunAlike(kv, a[..|a| - 1], b[..|b| - 1]);
    }
  }

  predicate Alike(xs: seq<Instance>, ys: seq<Instance>) {
    |xs| == |ys| && forall i :: 0 <= i < |xs| ==> SameOps(xs[i].ops, ys[i].ops)
  }

  predicate SameResults(rs: seq<Instance>, ts: seq<Instance>) {
    |rs| == |ts| && forall i :: 0 <= i < |rs| ==> rs[i].ops == ts[i].ops
  }

  lemma {:induction false} AlikeRunAlike(kv: KV, xs: seq<Instance>, ys: seq<Instance>)
    requires Alike(xs, ys)
    ensures RunAll(kv, xs).0 == RunAll(kv, ys).0 && SameResults(RunAll(kv, xs).1, RunAll(kv, ys).1)
    decreases |xs|
  {
    if |xs| > 0 {
      SameOpsRunAlike(kv, xs[0].ops, ys[0].ops);
      AlikeRunAlike(RunOps(kv, xs[0].ops).0, xs[1..], ys[1..]);
    }
  }

  // ---- What a replica has run so far ----------------------------------------------------------

  ghost function History(run: seq<System>, evs: seq<Event>, r: nat, k: nat): seq<Node>
    requires k <= |evs| < |run|
    decreases k
  {
    if k == 0 then [] else RunSince(run[k - 1], evs[k - 1], r, History(run, evs, r, k - 1))
  }

  // What replica r has run after one more event.
  ghost function RunSince(g: System, ev: Event, r: nat, ns: seq<Node>): seq<Node> {
    if ev.ExecuteAt? && ev.r == r && g.Valid() && r < g.n
    then ns + ExecuteTo(g.reps[r], ev.order, |ev.order|).trace
    else ns
  }

  function Plains(logs: Log, ns: seq<Node>): (r: seq<Instance>)
    requires forall v :: v in ns ==> ValidNode(logs, v)
    ensures |r| == |ns|
  {
    seq(|ns|, i requires 0 <= i < |ns| => Plain(Inst(logs, ns[i])))
  }

  predicate IsExecuted(logs: Log, v: Node) {
    ValidNode(logs, v) && Inst(logs, v).state.Executed?
  }

  // ns are exactly the executed instances of s, once each, and running them in order from the empty
  // map gives the data of s and the read results it logs.
  ghost predicate Ledger(s: Replica, ns: seq<Node>) {
    && (forall v :: v in ns <==> IsExecuted(s.logs, v))
    && (forall i, j :: 0 <= i < j < |ns| ==> ns[i] != ns[j])
    && RunAll(map[], Plains(s.logs, ns)).0 == s.kvmap
    && SameResults(RunAll(map[], Plains(s.logs, ns)).1, Logged(s.logs, ns))
  }

  // A step that leaves the data and every executed entry alone, and executes nothing, leaves the ledger.
  lemma LedgerStays(s: Replica, s': Replica, ns: seq<Node>)
    requires Ledger(s, ns) && s'.kvmap == s.kvmap
    requires forall v :: IsExecuted(s.logs, v) || IsExecuted(s'.logs, v) ==>
      ValidNode(s.logs, v) && ValidNode(s'.logs, v) && Inst(s'.logs, v) == Inst(s.logs, v)
    ensures Ledger(s', ns)
  {
    forall v | v in ns ensures IsExecuted(s'.logs, v) && Inst(s'.logs, v) == Inst(s.logs, v) {
      assert IsExecuted(s.logs, v);
    }
    assert Plains(s'.logs, ns) == Plains(s.logs, ns) && Logged(s'.logs, ns) == Logged(s.logs, ns);
  }

  // An execution appends its trace to the ledger.
  lemma LedgerGrows(s: Replica, p: Progress, ns: seq<Node>)
    requires s.Valid() && p.s.Valid() && Ledger(s, ns) && TraceOf(s, p)
    ensures Ledger(p.s, ns + p.trace)
  {
    var all := ns + p.trace;
    LedgerNodes(s, p, ns);
    forall v | v in ns ensures ValidNode(p.s.logs, v) && Inst(p.s.logs, v) == Inst(s.logs, v) {
      assert IsExecuted(s.logs, v);
      TraceEntries(s, p, v);
    }
    forall v | v in p.trace ensures ValidNode(s.logs, v) && SameOps(Inst(s.logs, v).ops, Plain(Inst(p.s.logs, v)).ops) {
      TraceEntries(s, p, v);
      PlainIsDecision(Inst(s.logs, v), Inst(p.s.logs, v));
      PlainSameOps(Inst(s.logs, v));
    }
    var before, added := Plains(s.logs, ns), Plains(p.s.logs, p.trace);
    ListsJoin(s.logs, p.s.logs, ns, p.trace);
    RunsJoin(before, added, s.kvmap, Logged(s.logs, ns), Logged(s.logs, p.trace), Logged(p.s.logs, p.trace), p.s.kvmap);
  }

  lemma LedgerNodes(s: Replica, p: Progress, ns: seq<Node>)
    requires s.Valid() && p.s.Valid() && Ledger(s, ns) && TraceOf(s, p)
    ensures forall v :: v in ns + p.trace <==> IsExecuted(p.s.logs, v)
    ensures var all := ns + p.trace; forall i, j :: 0 <= i < j < |all| ==> all[i] != all[j]
  {
    forall v ensures v in ns + p.trace <==> IsExecuted(p.s.logs, v) {
      TraceEntries(s, p, v);
    }
    forall v | v in ns ensures v !in p.trace {
      assert IsExecuted(s.logs, v);
      TraceEntries(s, p, v);
    }
  }

  lemma ListsJoin(logs: Log, logs': Log, ns: seq<Node>, ms: seq<Node>)
    requires forall v :: v in ns ==> ValidNode(logs, v) && ValidNode(logs', v) && Inst(logs', v) == Inst(logs, v)
    requires forall v :: v in ms ==> ValidNode(logs', v)
    ensures Plains(logs', ns + ms) == Plains(logs, ns) + Plains(logs', ms)
    ensures Logged(logs', ns + ms) == Logged(logs, ns) + Logged(logs', ms)
  {
  }

  lemma RunsJoin(before: seq<Instance>, added: seq<Instance>, kv: KV, done: seq<Instance>,
                 xs: seq<Instance>, rs: seq<Instance>, kv': KV)
    requires RunAll(map[], before).0 == kv && SameResults(RunAll(map[], before).1, done)
    requires RunAll(kv, xs) == (kv', rs) && Alike(xs, added)
    ensures RunAll(map[], before + added).0 == kv' && SameResults(RunAll(map[], before + added).1, done + rs)
  {
    AlikeRunAlike(kv, xs, added);
    RunAllSplit(map[], before, added);
  }

  lemma TraceEntries(s: Replica, p: Progress, v: Node)
    requires s.Valid() && p.s.Valid() && TraceOf(s, p)
    ensures v in p.trace ==>
      ValidNode(s.logs, v) && ValidNode(p.s.logs, v) && SameDecision(Inst(s.logs, v), Inst(p.s.logs, v))
    ensures v in p.trace ==> !IsExecuted(s.logs, v) && IsExecuted(p.s.logs, v)
    ensures v !in p.trace ==> IsExecuted(s.logs, v) == IsExecuted(p.s.logs, v)
    ensures v !in p.trace && ValidNode(s.logs, v) ==> ValidNode(p.s.logs, v) && Inst(p.s.logs, v) == Inst(s.logs, v)
  {
    if v.rep >= 0 {
      assert EntryRan(Entry(s.logs, v.rep, v.slot), Entry(p.s.logs, v.rep, v.slot));
      assert v == Node(v.rep, v.slot);
    }
  }

  // ---- Along a run ----------------------------------------------------------------------------

  // No message carries an executed record.
  lemma NothingExecutedTravels(g: System, from: nat, to: nat)
    requires Inv(g) && Enabled(g, Deliver(from, to))
    ensures match g.reps[from].out[to][0]
      case PreAccept(i) => !i.state.Executed?
      case Accept(i) => !i.state.Executed?
      case Commit(i) => !i.state.Executed?
      case _ => true
  {
    var m := g.reps[from].out[to][0];
    if m.PreAccept? || m.Accept? || m.Commit? {
      var k := m.inst.slot;
      HeadOfLink(g, from, to);
      InvAt(g, from, k);
      assert ViewOf(g, from, k).fwd[to] == Fwd(g, from, to, k);
      ForwardHead(g.n, from, k, ViewOf(g, from, k), to);
    }
  }

  lemma HandlersDoNotExecute(s: Replica, from: nat, m: Message, v: Node)
    requires s.Valid() && from < s.n && Accepts(s, from, m) && IsExecuted(Handle(s, from, m).logs, v)
    requires match m
      case PreAccept(i) => !i.state.Executed?
      case Accept(i) => !i.state.Executed?
      case Commit(i) => !i.state.Executed?
      case _ => true
    ensures Entry(s.logs, v.rep, v.slot) == Entry(Handle(s, from, m).logs, v.rep, v.slot)
  {
  }

  // Only a replica's own execution makes an entry of its log executed.
  lemma OnlyExecutionExecutes(g: System, ev: Event, r: nat, v: Node)
    requires Inv(g) && Enabled(g, ev) && r < g.n && !(ev.ExecuteAt? && ev.r == r)
    requires IsExecuted(Next(g, ev).reps[r].logs, v)
    ensures Entry(g.reps[r].logs, v.rep, v.slot) == Entry(Next(g, ev).reps[r].logs, v.rep, v.slot)
  {
    match ev
    case ProposeAt(p, _) =>
    case Deliver(from, to) =>
      if r == to {
        NothingExecutedTravels(g, from, to);
        HandlersDoNotExecute(g.reps[to], from, g.reps[from].out[to][0], v);
      }
    case FireCommit(p, _) =>
    case ExecuteAt(p, _) =>
  }

  lemma OthersKeepData(g: System, ev: Event, r: nat)
    requires g.Valid() && Enabled(g, ev) && r < g.n && !(ev.ExecuteAt? && ev.r == r)
    ensures Next(g, ev).reps[r].kvmap == g.reps[r].kvmap
  {
    if ev.Deliver? && r == ev.to {
      HandlersKeepData(g.reps[r], ev.from, g.reps[ev.from].out[r][0]);
    }
  }

  lemma HandlersKeepData(s: Replica, from: nat, m: Message)
    requires s.Valid() && from < s.n && Accepts(s, from, m)
    ensures Handle(s, from, m).kvmap == s.kvmap
  {
  }

  lemma StepLedger(g: System, ev: Event, r: nat, ns: seq<Node>)
    requires Inv(g) && Enabled(g, ev) && r < g.n && Ledger(g.reps[r], ns) && !(ev.ExecuteAt? && ev.r == r)
    ensures Ledger(Next(g, ev).reps[r], ns)
  {
    ExecutedStays(g, ev, r);
    OthersKeepData(g, ev, r);
    LedgerStays(g.reps[r], Next(g, ev).reps[r], ns);
  }

  // Whatever else happens, the executed entries of a log stay just as they are.
  lemma ExecutedStays(g: System, ev: Event, r: nat)
    requires Inv(g) && Enabled(g, ev) && r < g.n && !(ev.ExecuteAt? && ev.r == r)
    ensures var s, s' := g.reps[r], Next(g, ev).reps[r];
      forall v :: IsExecuted(s.logs, v) || IsExecuted(s'.logs, v) ==>
        ValidNode(s.logs, v) && ValidNode(s'.logs, v) && Inst(s'.logs, v) == Inst(s.logs, v)
  {
    var s, s' := g.reps[r], Next(g, ev).reps[r];
    forall v | IsExecuted(s.logs, v) || IsExecuted(s'.logs, v)
      ensures ValidNode(s.logs, v) && ValidNode(s'.logs, v) && Inst(s'.logs, v) == Inst(s.logs, v)
    {
      if IsExecuted(s.logs, v) {
        assert Held(g, r, v.rep, v.slot) == Some(Inst(s.logs, v));
        StepAdvances(g, ev, r, v.rep, v.slot);
      } else {
        OnlyExecutionExecutes(g, ev, r, v);
      }
    }
  }

  // In every state of a run, what a replica holds is what running its history in order makes of
  // the empty map, and its history is exactly the instances it marks executed, once each.
  lemma HistoryIsLedger(n: nat, run: seq<System>, evs: seq<Event>, r: nat, k: nat)
    requires IsRun(n, run, evs) && r < n && k <= |evs|
    ensures run[k].Valid() && run[k].n == n
    ensures Ledger(run[k].reps[r], History(run, evs, r, k))
  {
    LedgerUpTo(n, run, evs, r, k);
  }

  ghost predicate LedgerAt(n: nat, run: seq<System>, evs: seq<Event>, r: nat, k: nat) {
    k <= |evs| < |run| && run[k].Valid() && run[k].n == n && r < n && Ledger(run[k].reps[r], History(run, evs, r, k))
  }

  lemma LedgerUpTo(n: nat, run: seq<System>, evs: seq<Event>, r: nat, k: nat)
    requires IsRun(n, run, evs) && r < n && k <= |evs|
    ensures LedgerAt(n, run, evs, r, k)
  {
    LedgerAtStart(n, run, evs, r);
    for j := 0 to k
      invariant LedgerAt(n, run, evs, r, j)
    {
      LedgerAlong(n, run, evs, r, j);
    }
  }

  lemma LedgerAlong(n: nat, run: seq<System>, evs: seq<Event>, r: nat, k: nat)
    requires IsRun(n, run, evs) && k < |evs| && LedgerAt(n, run, evs, r, k)
    ensures LedgerAt(n, run, evs, r, k + 1)
  {
    var g, ev, ns := run[k], evs[k], History(run, evs, r, k);
    RunInv(n, run, evs, k);
    assert StepOf(g, ev, run[k + 1]);
    LedgerNext(g, ev, run[k + 1], r, ns);
  }

  lemma LedgerNext(g: System, ev: Event, g': System, r: nat, ns: seq<Node>)
    requires Inv(g) && StepOf(g, ev, g') && r < g.n && Ledger(g.reps[r], ns)
    ensures g'.Valid() && g'.n == g.n && Ledger(g'.reps[r], RunSince(g, ev, r, ns))
  {
    LedgerStep(g, ev, r, ns);
  }

  lemma LedgerStep(g: System, ev: Event, r: nat, ns: seq<Node>)
    requires Inv(g) && Enabled(g, ev) && r < g.n && Ledger(g.reps[r], ns)
    ensures Ledger(Next(g, ev).reps[r], RunSince(g, ev, r, ns))
  {
    if ev.ExecuteAt? && ev.r == r {
      ExecuteTrace(g.reps[r], ev.order, |ev.order|);
      LedgerGrows(g.reps[r], ExecuteTo(g.reps[r], ev.order, |ev.order|), ns);
    } else {
      StepLedger(g, ev, r, ns);
    }
  }

  lemma LedgerAtStart(n: nat, run: seq<System>, evs: seq<Event>, r: nat)
    requires IsRun(n, run, evs) && r < n
    ensures LedgerAt(n, run, evs, r, 0)
  {
    StartLedger(n, r);
  }

  lemma StartLedger(n: nat, r: nat)
    requires n >= 2 && r < n
    ensures Ledger(Start(n).reps[r], [])
  {
  }

  // ---- Convergence ----------------------------------------------------------------------------

  // Two histories run every pair that shares a key in the same order.
  predicate SameOrder(logs: Log, xs: seq<Node>, ys: seq<Node>) {
    forall i, j, p, q ::
      (0 <= i < j < |xs| && 0 <= p < |ys| && 0 <= q < |ys| && ys[p] == xs[i] && ys[q] == xs[j]
       && ValidNode(logs, xs[i]) && ValidNode(logs, xs[j]) && Conflict(Inst(logs, xs[i]).ops, Inst(logs, xs[j]).ops))
      ==> p < q
  }

  // Replicas r and r' have executed the same instances.
  ghost predicate SameExecuted(g: System, r: nat, r': nat) {
    g.Valid() && r < g.n && r' < g.n && forall v :: IsExecuted(g.reps[r].logs, v) <==> IsExecuted(g.reps[r'].logs, v)
  }

  // Two replicas of a run that have executed the same instances, conflicting ones in the same order,
  // hold the same data and have answered every read alike.
  lemma Convergence(n: nat, run: seq<System>, evs: seq<Event>, r: nat, r': nat)
    requires IsRun(n, run, evs) && SameExecuted(run[|evs|], r, r')
    requires SameOrder(run[|evs|].reps[r].logs, History(run, evs, r, |evs|), History(run, evs, r', |evs|))
    ensures var g := run[|evs|];
      && g.reps[r].kvmap == g.reps[r'].kvmap
      && forall v :: IsExecuted(g.reps[r].logs, v) ==>
           ValidNode(g.reps[r'].logs, v) && Inst(g.reps[r].logs, v).ops == Inst(g.reps[r'].logs, v).ops
  {
    var g, ns, ms := run[|evs|], History(run, evs, r, |evs|), History(run, evs, r', |evs|);
    RunInv(n, run, evs, |evs|);
    HistoryIsLedger(n, run, evs, r, |evs|);
    HistoryIsLedger(n, run, evs, r', |evs|);
    forall v | IsExecuted(g.reps[r].logs, v) ensures SameRecord(g.reps[r].logs, g.reps[r'].logs, v) {
      AgreeOn(g, r, r', v);
    }
    LedgersAgree(g.reps[r], g.reps[r'], ns, ms);
  }

  // Both logs hold the decision about v in its own place.
  predicate SameRecord(logs: Log, logs': Log, v: Node) {
    && ValidNode(logs, v) && ValidNode(logs', v) && SameDecision(Inst(logs, v), Inst(logs', v))
    && Inst(logs, v).rep == v.rep && Inst(logs, v).slot == v.slot
  }

  lemma AgreeOn(g: System, r: nat, r': nat, v: Node)
    requires Inv(g) && r < g.n && r' < g.n && IsExecuted(g.reps[r].logs, v) && IsExecuted(g.reps[r'].logs, v)
    ensures SameRecord(g.reps[r].logs, g.reps[r'].logs, v)
  {
    assert Held(g, r, v.rep, v.slot) == Some(Inst(g.reps[r].logs, v));
    assert Held(g, r', v.rep, v.slot) == Some(Inst(g.reps[r'].logs, v));
    Agreement(g, r, r', v.rep, v.slot);
    DecidedAtLeader(g, r, v.rep, v.slot);
    InvAt(g, v.rep, v.slot);
    assert ViewOf(g, v.rep, v.slot).entries[v.rep] == Held(g, v.rep, v.rep, v.slot);
  }

  lemma LedgersAgree(s: Replica, s': Replica, ns: seq<Node>, ms: seq<Node>)
    requires Ledger(s, ns) && Ledger(s', ms)
    requires forall v :: IsExecuted(s.logs, v) <==> IsExecuted(s'.logs, v)
    requires forall v :: IsExecuted(s.logs, v) ==> SameRecord(s.logs, s'.logs, v)
    requires SameOrder(s.logs, ns, ms)
    ensures s.kvmap == s'.kvmap
    ensures forall v :: IsExecuted(s.logs, v) ==> ValidNode(s'.logs, v) && Inst(s.logs, v).ops == Inst(s'.logs, v).ops
  {
    var xs, ys := Plains(s.logs, ns), Plains(s'.logs, ms);
    LedgersLineUp(s, s', ns, ms);
    OrderOfConflictsSuffices(map[], xs, ys);
    forall v | IsExecuted(s.logs, v) ensures ValidNode(s'.logs, v) && Inst(s.logs, v).ops == Inst(s'.logs, v).ops {
      assert IsExecuted(s'.logs, v);
      PlainIsDecision(Inst(s.logs, v), Inst(s'.logs, v));
      SameAnswerFor(s.logs, s'.logs, ns, ms, v);
    }
  }

  lemma SameAnswerFor(logs: Log, logs': Log, ns: seq<Node>, ms: seq<Node>, v: Node)
    requires (forall u :: u in ns ==> ValidNode(logs, u)) && forall u :: u in ms ==> ValidNode(logs', u)
    requires v in ns && v in ms && Plain(Inst(logs, v)) == Plain(Inst(logs', v))
    requires var xs, ys := Plains(logs, ns), Plains(logs', ms);
      && SameAnswers(xs, ys, RunAll(map[], xs).1, RunAll(map[], ys).1)
      && SameResults(RunAll(map[], xs).1, Logged(logs, ns)) && SameResults(RunAll(map[], ys).1, Logged(logs', ms))
    ensures Inst(logs, v).ops == Inst(logs', v).ops
  {
    var xs, ys := Plains(logs, ns), Plains(logs', ms);
    var i :| 0 <= i < |ns| && ns[i] == v;
    var p :| 0 <= p < |ms| && ms[p] == v;
    AnswersLineUp(xs, ys, RunAll(map[], xs).1, RunAll(map[], ys).1, Logged(logs, ns), Logged(logs', ms), i, p);
  }

  lemma LedgersLineUp(s: Replica, s': Replica, ns: seq<Node>, ms: seq<Node>)
    requires Ledger(s, ns) && Ledger(s', ms) && SameOrder(s.logs, ns, ms)
    requires forall v :: IsExecuted(s.logs, v) <==> IsExecuted(s'.logs, v)
    requires forall v :: IsExecuted(s.logs, v) ==> SameRecord(s.logs, s'.logs, v)
    ensures var xs, ys := Plains(s.logs, ns), Plains(s'.logs, ms);
      Distinct(xs) && Distinct(ys) && multiset(xs) == multiset(ys) && SameConflictOrder(xs, ys)
  {
    forall v | v in ns || v in ms
      ensures SameRecord(s.logs, s'.logs, v) && Plain(Inst(s.logs, v)) == Plain(Inst(s'.logs, v))
    {
      assert IsExecuted(s.logs, v);
      PlainIsDecision(Inst(s.logs, v), Inst(s'.logs, v));
    }
    assert InPlace(s.logs, ns) && InPlace(s'.logs, ms);
    PlainsLineUp(s.logs, s'.logs, ns, ms);
  }

  lemma AnswersLineUp(xs: seq<Instance>, ys: seq<Instance>, rx: seq<Instance>, ry: seq<Instance>,
                      lx: seq<Instance>, ly: seq<Instance>, i: nat, p: nat)
    requires SameAnswers(xs, ys, rx, ry) && SameResults(rx, lx) && SameResults(ry, ly)
    requires i < |xs| && p < |ys| && xs[i] == ys[p]
    ensures lx[i].ops == ly[p].ops
  {
    assert rx[i] == ry[p];
  }

  lemma PlainsLineUp(logs: Log, logs': Log, ns: seq<Node>, ms: seq<Node>)
    requires forall v :: v in ns <==> v in ms
    requires InPlace(logs, ns) && InPlace(logs', ms)
    requires forall v :: v in ns && v in ms ==>
      SameRecord(logs, logs', v) && Plain(Inst(logs, v)) == Plain(Inst(logs', v))
    requires forall i, j :: 0 <= i < j < |ns| ==> ns[i] != ns[j]
    requires forall i, j :: 0 <= i < j < |ms| ==> ms[i] != ms[j]
    requires SameOrder(logs, ns, ms)
    ensures var xs, ys := Plains(logs, ns), Plains(logs', ms);
      Distinct(xs) && Distinct(ys) && multiset(xs) == multiset(ys) && SameConflictOrder(xs, ys)
  {
    var xs, ys := Plains(logs, ns), Plains(logs', ms);
    PlainsDistinct(logs, ns);
    PlainsDistinct(logs', ms);
    PlainsAmong(logs, logs', ns, ms);
    PlainsAmong(logs', logs, ms, ns);
    SameMembers(xs, ys);
    PlainsOrder(logs, logs', ns, ms);
  }

  lemma PlainsAmong(logs: Log, logs': Log, ns: seq<Node>, ms: seq<Node>)
    requires InPlace(logs, ns) && InPlace(logs', ms)
    requires forall v :: v in ns ==> v in ms && Plain(Inst(logs, v)) == Plain(Inst(logs', v))
    ensures forall x :: x in Plains(logs, ns) ==> x in Plains(logs', ms)
  {
    forall i | 0 <= i < |ns| ensures Plains(logs, ns)[i] in Plains(logs', ms) {
      assert ns[i] in ns && ns[i] in ms;
      var p :| 0 <= p < |ms| && ms[p] == ns[i];
      assert Plains(logs', ms)[p] == Plains(logs, ns)[i];
    }
  }

  ghost predicate InPlace(logs: Log, ns: seq<Node>) {
    && (forall v :: v in ns ==> ValidNode(logs, v))
    && forall v :: v in ns ==> Inst(logs, v).rep == v.rep && Inst(logs, v).slot == v.slot
  }

  lemma PlainsDistinct(logs: Log, ns: seq<Node>)
    requires InPlace(logs, ns)
    requires forall i, j :: 0 <= i < j < |ns| ==> ns[i] != ns[j]
    ensures Distinct(Plains(logs, ns))
  {
    var xs := Plains(logs, ns);
    forall i, j | 0 <= i < j < |xs| ensures xs[i] != xs[j] {
      assert ns[i] in ns && ns[j] in ns;
    }
  }

  lemma PlainsOrder(logs: Log, logs': Log, ns: seq<Node>, ms: seq<Node>)
    requires InPlace(logs, ns)
    requires InPlace(logs', ms)
    requires SameOrder(logs, ns, ms)
    ensures SameConflictOrder(Plains(logs, ns), Plains(logs', ms))
  {
    var xs, ys := Plains(logs, ns), Plains(logs', ms);
    forall i, j, p, q | 0 <= i < j < |xs| && 0 <= p < |ys| && 0 <= q < |ys| && ys[p] == xs[i] && ys[q] == xs[j]
                        && Conflict(xs[i].ops, xs[j].ops) ensures p < q
    {
      assert ns[i] in ns && ns[j] in ns && ms[p] in ms && ms[q] in ms;
      assert ms[p] == ns[i] && ms[q] == ns[j];
      PlainSameOps(Inst(logs, ns[i]));
      PlainSameOps(Inst(logs, ns[j]));
      SameOpsConflict(Inst(logs, ns[i]).ops, xs[i].ops, Inst(logs, ns[j]).ops, xs[j].ops);
    }
  }

  lemma {:induction false} CountOnce(xs: seq<Instance>, x: Instance)
    requires Distinct(xs)
    ensures multiset(xs)[x] == if x in xs then 1 else 0
  {
    if |xs| > 0 {
      var k := |xs| - 1;
      assert xs == xs[..k] + [xs[k]];
      CountOnce(xs[..k], x);
    }
  }

  lemma SameMembers(xs: seq<Instance>, ys: seq<Instance>)
    requires Distinct(xs) && Distinct(ys) && forall x :: x in xs <==> x in ys
    ensures multiset(xs) == multiset(ys)
  {
    forall x ensures multiset(xs)[x] == multiset(ys)[x] {
      CountOnce(xs, x);
      CountOnce(ys, x);
    }
  }
}
