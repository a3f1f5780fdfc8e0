/** What executeSome guarantees about the order in which it runs instances, and what that order is worth. */
module EpaxosOrder {
  import opened EpaxosTypes
  import opened EpaxosHandlers
  import opened EpaxosExecution

  // ---- Dependencies first ---------------------------------------------------------------------

  // The node that dependency 'rep' of the instance at v names, when the log holds it: an edge of
  // the graph handed to Tarjan's algorithm.
  predicate Edge(logs: Log, v: Node, rep: nat, d: Node) {
    && ValidNode(logs, v) && rep < |Inst(logs, v).deps|
    && d == Node(rep, Inst(logs, v).deps[rep]) && d.slot >= 0 && ValidNode(logs, d)
  }

  // An edge leads into the same component or an earlier one.
  ghost predicate DependencyOrder(logs: Log, order: seq<seq<Node>>) {
    forall c, v, rep: nat, d :: 0 <= c < |order| && v in order[c] && Edge(logs, v, rep, d) ==> InFirst(order, c + 1, d)
  }

  ghost predicate InFirst(order: seq<seq<Node>>, c: int, d: Node) {
    exists k :: 0 <= k < c && k < |order| && d in order[k]
  }

  // The state in which node i of component c is about to be visited.
  function Before(s: Replica, order: seq<seq<Node>>, c: nat, i: nat): (p: Progress)
    requires s.Valid() && c < |order| && i < |order[c]|
    ensures p.s.Valid()
  {
    VisitAll(ExecuteTo(s, order, c), order[c], i)
  }

  // Visiting v in p runs it.
  predicate Runs(p: Progress, v: Node)
    requires p.s.Valid()
  {
    !p.stopped && ValidNode(p.s.logs, v) && Inst(p.s.logs, v).state.Committed?
    && DepsReady(p.s.logs, Inst(p.s.logs, v).deps)
  }

  lemma BeforeRan(s: Replica, order: seq<seq<Node>>, c: nat, i: nat)
    requires s.Valid() && c < |order| && i < |order[c]|
    ensures OnlyRan(s, Before(s, order, c, i).s)
  {
    ExecuteToRan(s, order, c);
    var p := ExecuteTo(s, order, c);
    VisitAllRan(p, order[c], i);
    OnlyRanTransitive(s, p.s, Before(s, order, c, i).s);
  }

  // No node of ns is left committed but unexecuted.
  ghost predicate Settled(logs: Log, ns: seq<Node>) {
    forall v :: v in ns && ValidNode(logs, v) ==> !Inst(logs, v).state.Committed?
  }

  lemma StaysSettled(a: Replica, b: Replica, ns: seq<Node>)
    requires OnlyRan(a, b) && Settled(a.logs, ns)
    ensures Settled(b.logs, ns)
  {
    forall v | v in ns && ValidNode(b.logs, v) ensures !Inst(b.logs, v).state.Committed? {
      assert EntryRan(Entry(a.logs, v.rep, v.slot), Entry(b.logs, v.rep, v.slot));
      assert ValidNode(a.logs, v);
    }
  }

  lemma {:induction false} ComponentSettles(p: Progress, scc: seq<Node>, i: nat)
    requires p.s.Valid() && i <= |scc|
    ensures !VisitAll(p, scc, i).stopped ==> Settled(VisitAll(p, scc, i).s.logs, scc[..i]) && !p.stopped
  {
    if i > 0 {
      ComponentSettles(p, scc, i - 1);
      var q := VisitAll(p, scc, i - 1);
      VisitRan(q, scc[i - 1]);
      if !VisitAll(p, scc, i).stopped {
        StaysSettled(q.s, VisitAll(p, scc, i).s, scc[..i - 1]);
        assert scc[..i] == scc[..i - 1] + [scc[i - 1]];
      }
    }
  }

  lemma {:induction false} EarlierSettle(s: Replica, order: seq<seq<Node>>, c: nat, k: nat)
    requires s.Valid() && k < c <= |order|
    ensures !ExecuteTo(s, order, c).stopped ==> Settled(ExecuteTo(s, order, c).s.logs, order[k])
  {
    var p := ExecuteTo(s, order, c - 1);
    ComponentSettles(p, order[c - 1], |order[c - 1]|);
    assert order[c - 1][..|order[c - 1]|] == order[c - 1];
    if k < c - 1 {
      EarlierSettle(s, order, c - 1, k);
      VisitAllRan(p, order[c - 1], |order[c - 1]|);
      if !p.stopped {
        StaysSettled(p.s, ExecuteTo(s, order, c).s, order[k]);
      }
    }
  }

  // When an instance runs, every dependency is at least committed, and every dependency outside its
  // own component has been executed, for any log and any order whose edges point back.
  lemma DependenciesFirst(s: Replica, order: seq<seq<Node>>, c: nat, i: nat, rep: nat)
    requires s.Valid() && c < |order| && i < |order[c]| && DependencyOrder(s.logs, order)
    requires Runs(Before(s, order, c, i), order[c][i])
    requires var inst := Inst(Before(s, order, c, i).s.logs, order[c][i]); rep < |inst.deps| && inst.deps[rep] >= 0
    ensures var logs := Before(s, order, c, i).s.logs;
      var d := Node(rep, Inst(logs, order[c][i]).deps[rep]);
      && ValidNode(logs, d) && Inst(logs, d).Decided()
      && (d !in order[c] ==> Inst(logs, d).state.Executed?)
  {
    var p := Before(s, order, c, i);
    var v := order[c][i];
    var d := Node(rep, Inst(p.s.logs, v).deps[rep]);
    assert DepReady(p.s.logs, rep, d.slot);
    if d !in order[c] {
      BeforeRan(s, order, c, i);
      assert EntryRan(Entry(s.logs, v.rep, v.slot), Entry(p.s.logs, v.rep, v.slot));
      assert EntryRan(Entry(s.logs, d.rep, d.slot), Entry(p.s.logs, d.rep, d.slot));
      assert Edge(s.logs, v, rep, d);
      assert InFirst(order, c + 1, d);
      var k :| 0 <= k < c + 1 && k < |order| && d in order[k];
      EarlierSettle(s, order, c, k);
      ComponentSettles(ExecuteTo(s, order, c), order[c], i);
      VisitAllRan(ExecuteTo(s, order, c), order[c], i);
      StaysSettled(ExecuteTo(s, order, c).s, p.s, order[k]);
    }
  }

  // ---- Running a list of instances ------------------------------------------------------------

  function RunAll(kv: KV, xs: seq<Instance>): (r: (KV, seq<Instance>))
    ensures |r.1| == |xs|
    decreases |xs|
  {
    if |xs| == 0 then (kv, [])
    else
      var (kv', rest) := RunAll(RunOps(kv, xs[0].ops).0, xs[1..]);
      (kv', [Ran(kv, xs[0])] + rest)
  }

  lemma RunCons(kv: KV, x: Instance, zs: seq<Instance>)
    ensures var rest := RunAll(RunOps(kv, x.ops).0, zs);
      RunAll(kv, [x] + zs) == (rest.0, [Ran(kv, x)] + rest.1)
  {
    assert ([x] + zs)[1..] == zs && ([x] + zs)[0] == x;
  }

  lemma {:induction false} RunAllSplit(kv: KV, xs: seq<Instance>, ys: seq<Instance>)
    ensures RunAll(kv, xs + ys).0 == RunAll(RunAll(kv, xs).0, ys).0
    ensures RunAll(kv, xs + ys).1 == RunAll(kv, xs).1 + RunAll(RunAll(kv, xs).0, ys).1
    decreases |xs|
  {
    if |xs| == 0 {
      assert xs + ys == ys;
    } else {
      RunAllSplit(RunOps(kv, xs[0].ops).0, xs[1..], ys);
      assert (xs + ys)[1..] == xs[1..] + ys;
    }
  }

  function Logged(logs: Log, ns: seq<Node>): (r: seq<Instance>)
    requires forall v :: v in ns ==> ValidNode(logs, v)
    ensures |r| == |ns|
  {
    seq(|ns|, i requires 0 <= i < |ns| => Inst(logs, ns[i]))
  }

  // executeSome is running the instances of its trace in order: it leaves the key-value map and the
  // read results of that run, executes each of them once and nothing else.
  ghost predicate TraceOf(s: Replica, p: Progress) {
    && OnlyRan(s, p.s)
    && (forall v :: v in p.trace ==> ValidNode(s.logs, v) && ValidNode(p.s.logs, v)
                                     && Inst(s.logs, v).state.Committed? && Inst(p.s.logs, v).state.Executed?)
    && (forall i, j :: 0 <= i < j < |p.trace| ==> p.trace[i] != p.trace[j])
    && (forall rep: nat, k :: Node(rep, k) !in p.trace ==> Entry(p.s.logs, rep, k) == Entry(s.logs, rep, k))
    && RunAll(s.kvmap, Logged(s.logs, p.trace)) == (p.s.kvmap, Logged(p.s.logs, p.trace))
  }

  lemma VisitTrace(s: Replica, p: Progress, v: Node)
    requires s.Valid() && p.s.Valid() && TraceOf(s, p)
    ensures TraceOf(s, Visit(p, v))
  {
    VisitRan(p, v);
    OnlyRanTransitive(s, p.s, Visit(p, v).s);
    if Runs(p, v) {
      TraceNodes(s, p, v);
      TraceRun(s, p, v);
    }
  }

  // The visited node joins the trace: it was not there, and no other entry changes.
  lemma TraceNodes(s: Replica, p: Progress, v: Node)
    requires s.Valid() && p.s.Valid() && TraceOf(s, p) && Runs(p, v)
    ensures v !in p.trace && ValidNode(s.logs, v) && Inst(s.logs, v) == Inst(p.s.logs, v)
    ensures var q := Visit(p, v);
      && q.trace == p.trace + [v] && ValidNode(q.s.logs, v) && Inst(q.s.logs, v) == Ran(p.s.kvmap, Inst(s.logs, v))
      && (forall u :: u in p.trace ==> ValidNode(q.s.logs, u) && Inst(q.s.logs, u) == Inst(p.s.logs, u))
      && (forall rep: nat, k :: Node(rep, k) !in q.trace ==> Entry(q.s.logs, rep, k) == Entry(s.logs, rep, k))
      && (forall i, j :: 0 <= i < j < |q.trace| ==> q.trace[i] != q.trace[j])
  {
    var q := Visit(p, v);
    assert v !in p.trace;
    assert Node(v.rep, v.slot) == v;
    assert Entry(p.s.logs, v.rep, v.slot) == Entry(s.logs, v.rep, v.slot);
    forall u | u in p.trace ensures ValidNode(q.s.logs, u) && Inst(q.s.logs, u) == Inst(p.s.logs, u) {
      assert u != v && ValidNode(p.s.logs, u);
      assert Entry(q.s.logs, u.rep, u.slot) == Entry(p.s.logs, u.rep, u.slot);
    }
    forall rep: nat, k | Node(rep, k) !in q.trace ensures Entry(q.s.logs, rep, k) == Entry(s.logs, rep, k) {
      assert v in q.trace;
    }
  }

  lemma TraceRun(s: Replica, p: Progress, v: Node)
    requires s.Valid() && p.s.Valid() && TraceOf(s, p) && Runs(p, v)
    ensures var q := Visit(p, v);
      && (forall u :: u in q.trace ==> ValidNode(s.logs, u) && ValidNode(q.s.logs, u))
      && RunAll(s.kvmap, Logged(s.logs, q.trace)) == (q.s.kvmap, Logged(q.s.logs, q.trace))
  {
    var q := Visit(p, v);
    TraceNodes(s, p, v);
    var xs, x := Logged(s.logs, p.trace), Inst(s.logs, v);
    assert Logged(s.logs, q.trace) == xs + [x];
    RunOneMore(s.kvmap, xs, x, p.s.kvmap, Logged(p.s.logs, p.trace));
    assert Logged(q.s.logs, q.trace) == Logged(p.s.logs, p.trace) + [Ran(p.s.kvmap, x)];
  }

  lemma RunOneMore(kv: KV, xs: seq<Instance>, x: Instance, kv1: KV, rs: seq<Instance>)
    requires RunAll(kv, xs) == (kv1, rs)
    ensures RunAll(kv, xs + [x]) == (RunOps(kv1, x.ops).0, rs + [Ran(kv1, x)])
  {
    RunAllSplit(kv, xs, [x]);
    RunCons(kv1, x, []);
    assert [x] + [] == [x] && [Ran(kv1, x)] + [] == [Ran(kv1, x)];
  }

  lemma {:induction false} VisitAllTrace(s: Replica, p: Progress, scc: seq<Node>, i: nat)
    requires s.Valid() && p.s.Valid() && TraceOf(s, p) && i <= |scc|
    ensures TraceOf(s, VisitAll(p, scc, i))
  {
    if i > 0 {
      VisitAllTrace(s, p, scc, i - 1);
      VisitTrace(s, VisitAll(p, scc, i - 1), scc[i - 1]);
    }
  }

  lemma {:induction false} ExecuteTrace(s: Replica, order: seq<seq<Node>>, c: nat)
    requires s.Valid() && c <= |order|
    ensures TraceOf(s, ExecuteTo(s, order, c))
  {
    if c > 0 {
      ExecuteTrace(s, order, c - 1);
      VisitAllTrace(s, ExecuteTo(s, order, c - 1), order[c - 1], |order[c - 1]|);
    }
  }

  // ---- Order only matters between conflicts ---------------------------------------------------

  predicate SameAt(a: KV, b: KV, key: string) {
    (key in a) == (key in b) && (key in a ==> a[key] == b[key])
  }

  predicate Touches(ops: seq<Operation>, key: string) {
    exists i :: 0 <= i < |ops| && ops[i].key == key
  }

  lemma TouchesLast(ops: seq<Operation>, key: string)
    requires |ops| > 0
    ensures Touches(ops, key) <==> Touches(ops[..|ops| - 1], key) || ops[|ops| - 1].key == key
  {
    var k := |ops| - 1;
    if Touches(ops, key) {
      var i :| 0 <= i < |ops| && ops[i].key == key;
      if i < k {
        assert ops[..k][i].key == key;
      }
    }
    if Touches(ops[..k], key) {
      var i :| 0 <= i < k && ops[..k][i].key == key;
      assert ops[i].key == key;
    }
  }

  // Operations leave other keys alone, and see only their own.
  lemma {:induction false} RunOpsLocal(kv: KV, kv': KV, ops: seq<Operation>)
    requires forall key :: Touches(ops, key) ==> SameAt(kv, kv', key)
    ensures forall key :: Touches(ops, key) ==> SameAt(RunOps(kv, ops).0, RunOps(kv', ops).0, key)
    ensures forall key :: !Touches(ops, key) ==>
      SameAt(RunOps(kv, ops).0, kv, key) && SameAt(RunOps(kv', ops).0, kv', key)
    ensures RunOps(kv, ops).1 == RunOps(kv', ops).1
    decreases |ops|
  {
    if |ops| > 0 {
      var k := |ops| - 1;
      forall key ensures Touches(ops, key) <==> Touches(ops[..k], key) || ops[k].key == key {
        TouchesLast(ops, key);
      }
      RunOpsLocal(kv, kv', ops[..k]);
      assert Touches(ops, ops[k].key);
      var a, b := RunOps(kv, ops[..k]).0, RunOps(kv', ops[..k]).0;
      assert SameAt(a, b, ops[k].key);
      assert RunOps(kv, ops).0 == RunOp(a, ops[k]).0 && RunOps(kv', ops).0 == RunOp(b, ops[k]).0;
    }
  }

  lemma SameEverywhere(a: KV, b: KV)
    requires forall key :: SameAt(a, b, key)
    ensures a == b
  {
    forall key ensures (key in a <==> key in b) && (key in a ==> a[key] == b[key]) {
      assert SameAt(a, b, key);
    }
  }

  lemma BothTouch(a: seq<Operation>, b: seq<Operation>, key: string)
    ensures Touches(a, key) && Touches(b, key) ==> Conflict(a, b)
  {
    if Touches(a, key) && Touches(b, key) {
      var i :| 0 <= i < |a| && a[i].key == key;
      var j :| 0 <= j < |b| && b[j].key == key;
      assert a[i].key == b[j].key;
    }
  }

  // Two instances without a common key can change places.
  lemma Swap(kv: KV, x: Instance, y: Instance)
    requires !Conflict(x.ops, y.ops)
    ensures RunOps(RunOps(kv, x.ops).0, y.ops).0 == RunOps(RunOps(kv, y.ops).0, x.ops).0
    ensures Ran(RunOps(kv, x.ops).0, y) == Ran(kv, y)
    ensures Ran(RunOps(kv, y.ops).0, x) == Ran(kv, x)
  {
    var a, b := RunOps(kv, x.ops).0, RunOps(kv, y.ops).0;
    forall key ensures !(Touches(x.ops, key) && Touches(y.ops, key)) {
      BothTouch(x.ops, y.ops, key);
    }
    RunOpsLocal(kv, kv, x.ops);
    RunOpsLocal(kv, kv, y.ops);
    RunOpsLocal(a, kv, y.ops);
    RunOpsLocal(b, kv, x.ops);
    var c, d := RunOps(a, y.ops).0, RunOps(b, x.ops).0;
    forall key ensures SameAt(c, d, key) {
      if Touches(y.ops, key) {
        assert SameAt(c, b, key) && SameAt(d, b, key);
      } else {
        assert SameAt(c, a, key);
        assert Touches(x.ops, key) ==> SameAt(d, a, key);
        assert !Touches(x.ops, key) ==> SameAt(d, b, key) && SameAt(b, kv, key) && SameAt(a, kv, key);
      }
    }
    SameEverywhere(c, d);
  }

  function Without<T>(ys: seq<T>, k: nat): (r: seq<T>)
    requires k < |ys|
    ensures |r| == |ys| - 1
    ensures forall p :: 0 <= p < |r| ==> r[p] == ys[if p < k then p else p + 1]
  {
    ys[..k] + ys[k + 1..]
  }

  // An instance without a conflict before it can be run first.
  lemma {:induction false} RunFirst(kv: KV, ys: seq<Instance>, k: nat)
    requires k < |ys| && forall j :: 0 <= j < k ==> !Conflict(ys[j].ops, ys[k].ops)
    ensures var (kv', rs) := RunAll(kv, ys);
      RunAll(kv, [ys[k]] + Without(ys, k)) == (kv', [rs[k]] + Without(rs, k))
    decreases |ys|
  {
    if k == 0 {
      FirstStays(ys);
      FirstStays(RunAll(kv, ys).1);
    } else {
      var y, rest := ys[0], ys[1..];
      RunFirst(RunOps(kv, y.ops).0, rest, k - 1);
      assert ys == [y] + rest;
      FirstPasses(kv, y, rest, k - 1);
    }
  }

  lemma FirstStays(ys: seq<Instance>)
    requires |ys| > 0
    ensures [ys[0]] + Without(ys, 0) == ys
  {
  }

  // What can run first in the rest can run before the head as well, if it does not conflict with it.
  lemma FirstPasses(kv: KV, y: Instance, rest: seq<Instance>, k: nat)
    requires k < |rest| && !Conflict(y.ops, rest[k].ops)
    requires var (kv', rs) := RunAll(RunOps(kv, y.ops).0, rest);
      RunAll(RunOps(kv, y.ops).0, [rest[k]] + Without(rest, k)) == (kv', [rs[k]] + Without(rs, k))
    ensures var ys := [y] + rest;
      var (kv', rs) := RunAll(kv, ys);
      RunAll(kv, [ys[k + 1]] + Without(ys, k + 1)) == (kv', [rs[k + 1]] + Without(rs, k + 1))
  {
    var x, tail, kvy := rest[k], Without(rest, k), RunOps(kv, y.ops).0;
    RunCons(kv, y, rest);
    var done := SwapFirst(kv, x, y, tail);
    MoveFirst(Ran(kv, y), RunAll(kvy, rest).1, Ran(kvy, x), done, k + 1);
    assert Without([y] + rest, k + 1) == [y] + tail;
  }

  // Running x and y in either order before the rest.
  lemma SwapFirst(kv: KV, x: Instance, y: Instance, tail: seq<Instance>) returns (done: seq<Instance>)
    requires !Conflict(y.ops, x.ops)
    ensures var kvy := RunOps(kv, y.ops).0;
      && RunAll(kvy, [x] + tail).1 == [Ran(kvy, x)] + done
      && RunAll(kv, [x] + ([y] + tail)) == (RunAll(kvy, [x] + tail).0, [Ran(kvy, x)] + ([Ran(kv, y)] + done))
  {
    var kvy, kvx := RunOps(kv, y.ops).0, RunOps(kv, x.ops).0;
    done := RunAll(RunOps(kvy, x.ops).0, tail).1;
    Swap(kv, y, x);
    RunCons(kvy, x, tail);
    RunCons(kvx, y, tail);
    RunCons(kv, x, [y] + tail);
  }

  lemma MoveFirst(a: Instance, rest: seq<Instance>, b: Instance, done: seq<Instance>, k: nat)
    requires 0 < k <= |rest| && [b] + done == [rest[k - 1]] + Without(rest, k - 1)
    ensures ([a] + rest)[k] == b && Without([a] + rest, k) == [a] + done
  {
    HeadAndTail(b, done, rest[k - 1], Without(rest, k - 1));
    assert Without([a] + rest, k) == [a] + Without(rest, k - 1);
  }

  lemma HeadAndTail(a: Instance, s: seq<Instance>, b: Instance, t: seq<Instance>)
    requires [a] + s == [b] + t
    ensures a == b && s == t
  {
    assert ([a] + s)[0] == a && ([b] + t)[0] == b;
    assert s == ([a] + s)[1..] && t == ([b] + t)[1..];
  }

  predicate Distinct(xs: seq<Instance>) {
    forall i, j :: 0 <= i < j < |xs| ==> xs[i] != xs[j]
  }

  // Every pair that shares a key comes in the same order in both lists.
  predicate SameConflictOrder(xs: seq<Instance>, ys: seq<Instance>) {
    forall i, j, p, q ::
      0 <= i < j < |xs| && 0 <= p < |ys| && 0 <= q < |ys| && ys[p] == xs[i] && ys[q] == xs[j]
      && Conflict(xs[i].ops, xs[j].ops)
      ==> p < q
  }

  lemma NothingBefore(xs: seq<Instance>, ys: seq<Instance>, k: nat, j: nat)
    requires Distinct(ys) && multiset(xs) == multiset(ys) && SameConflictOrder(xs, ys)
    requires |xs| > 0 && j < k < |ys| && ys[k] == xs[0]
    ensures !Conflict(ys[j].ops, ys[k].ops)
  {
    assert ys[j] in multiset(xs);
    var i :| 0 <= i < |xs| && xs[i] == ys[j];
    ConflictSymmetric(ys[k].ops, ys[j].ops);
  }

  // Every instance of both lists is answered alike: rs[i] is what running xs[i] made of it.
  predicate SameAnswers(xs: seq<Instance>, ys: seq<Instance>, rx: seq<Instance>, ry: seq<Instance>) {
    |rx| == |xs| && |ry| == |ys| &&
    forall i, p :: 0 <= i < |xs| && 0 <= p < |ys| && xs[i] == ys[p] ==> rx[i] == ry[p]
  }

  lemma Alongside(x: Instance, xs: seq<Instance>, ys: seq<Instance>, k: nat, r: Instance, rx: seq<Instance>,
                  ry: seq<Instance>)
    requires k < |ys| == |ry| && ys[k] == x && ry[k] == r && Distinct(ys)
    requires SameAnswers(xs, Without(ys, k), rx, Without(ry, k))
    requires x !in xs
    ensures SameAnswers([x] + xs, ys, [r] + rx, ry)
  {
    forall i, p | 0 <= i < |xs| + 1 && 0 <= p < |ys| && ([x] + xs)[i] == ys[p] ensures ([r] + rx)[i] == ry[p] {
      if i > 0 {
        assert xs[i - 1] in xs;
        var p' := if p < k then p else p - 1;
        assert Without(ys, k)[p'] == ys[p] && Without(ry, k)[p'] == ry[p];
      }
    }
  }

  // Two orders of the same instances that agree on every pair sharing a key leave the same
  // key-value map and answer every read alike.
  lemma {:induction false} OrderOfConflictsSuffices(kv: KV, xs: seq<Instance>, ys: seq<Instance>)
    requires Distinct(xs) && Distinct(ys) && multiset(xs) == multiset(ys) && SameConflictOrder(xs, ys)
    ensures RunAll(kv, xs).0 == RunAll(kv, ys).0
    ensures SameAnswers(xs, ys, RunAll(kv, xs).1, RunAll(kv, ys).1)
    decreases |xs|
  {
    if |xs| == 0 {
      assert |multiset(xs)| == |multiset(ys)|;
    } else {
      var k := FindHead(xs, ys);
      var x, xs', ys' := xs[0], xs[1..], Without(ys, k);
      RunFirst(kv, ys, k);
      OrderOfConflictsSuffices(RunOps(kv, x.ops).0, xs', ys');
      Rejoin(kv, x, xs', ys, k);
      assert xs == [x] + xs';
    }
  }

  // The head of one list in the other, with nothing conflicting before it.
  lemma FindHead(xs: seq<Instance>, ys: seq<Instance>) returns (k: nat)
    requires Distinct(xs) && Distinct(ys) && multiset(xs) == multiset(ys) && SameConflictOrder(xs, ys) && |xs| > 0
    ensures k < |ys| && ys[k] == xs[0] && xs[0] !in xs[1..]
    ensures forall j :: 0 <= j < k ==> !Conflict(ys[j].ops, ys[k].ops)
    ensures var xs', ys' := xs[1..], Without(ys, k);
      Distinct(xs') && Distinct(ys') && multiset(xs') == multiset(ys') && SameConflictOrder(xs', ys')
  {
    assert xs[0] in multiset(ys);
    k :| 0 <= k < |ys| && ys[k] == xs[0];
    forall j: nat | j < k ensures !Conflict(ys[j].ops, ys[k].ops) {
      NothingBefore(xs, ys, k, j);
    }
    Removed(xs, ys, k);
    RemovedOrder(xs, ys, k);
  }

  lemma Rejoin(kv: KV, x: Instance, xs: seq<Instance>, ys: seq<Instance>, k: nat)
    requires k < |ys| && ys[k] == x && x !in xs && Distinct(ys)
    requires var (kv', rs) := RunAll(kv, ys);
      RunAll(kv, [ys[k]] + Without(ys, k)) == (kv', [rs[k]] + Without(rs, k))
    requires var kv1, ys' := RunOps(kv, x.ops).0, Without(ys, k);
      RunAll(kv1, xs).0 == RunAll(kv1, ys').0 && SameAnswers(xs, ys', RunAll(kv1, xs).1, RunAll(kv1, ys').1)
    ensures RunAll(kv, [x] + xs).0 == RunAll(kv, ys).0
    ensures SameAnswers([x] + xs, ys, RunAll(kv, [x] + xs).1, RunAll(kv, ys).1)
  {
    var kv1, ys' := RunOps(kv, x.ops).0, Without(ys, k);
    RunCons(kv, x, xs);
    RunCons(kv, x, ys');
    var rs := RunAll(kv, ys).1;
    HeadAndTail(Ran(kv, x), RunAll(kv1, ys').1, rs[k], Without(rs, k));
    Alongside(x, xs, ys, k, Ran(kv, x), RunAll(kv1, xs).1, rs);
  }

  lemma RemovedOrder(xs: seq<Instance>, ys: seq<Instance>, k: nat)
    requires |xs| > 0 && k < |ys| && Distinct(ys) && SameConflictOrder(xs, ys)
    ensures Distinct(Without(ys, k)) && SameConflictOrder(xs[1..], Without(ys, k))
  {
    var xs', ys' := xs[1..], Without(ys, k);
    forall i, j, p, q | 0 <= i < j < |xs'| && 0 <= p < |ys'| && 0 <= q < |ys'|
                        && ys'[p] == xs'[i] && ys'[q] == xs'[j] && Conflict(xs'[i].ops, xs'[j].ops)
      ensures p < q
    {
      var p', q' := if p < k then p else p + 1, if q < k then q else q + 1;
      assert xs'[i] == xs[i + 1] && xs'[j] == xs[j + 1];
      assert ys[p'] == xs[i + 1] && ys[q'] == xs[j + 1];
    }
  }

  lemma Removed(xs: seq<Instance>, ys: seq<Instance>, k: nat)
    requires |xs| > 0 && k < |ys| && ys[k] == xs[0]
    requires multiset(xs) == multiset(ys)
    ensures multiset(xs[1..]) == multiset(Without(ys, k))
  {
    assert xs == [xs[0]] + xs[1..];
    assert ys == ys[..k] + [ys[k]] + ys[k + 1..];
    assert multiset(ys) == multiset(ys[..k] + ys[k + 1..]) + multiset{ys[k]};
    assert multiset(xs) == multiset(xs[1..]) + multiset{xs[0]};
    assert multiset(xs[1..]) == multiset(xs) - multiset{xs[0]};
  }
}
