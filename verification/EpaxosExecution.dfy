/** Running committed instances against the key-value map, in dependency order. */
module EpaxosExecution {
  import opened Options
  import opened EpaxosTypes
  import opened EpaxosHandlers

  type KV = map<string, Bytes>

  datatype Node = Node(rep: int, slot: int)

  // ---- One instance ---------------------------------------------------------------------------

  function RunOp(kv: KV, op: Operation): (KV, Operation) {
    match op.kind
    case Read => (kv, op.(value := if op.key in kv then kv[op.key] else None))
    case Write => (kv[op.key := op.value], op)
    case Del => (kv - {op.key}, op)
    case _ => (kv, op)
  }

  function RunOps(kv: KV, ops: seq<Operation>): (r: (KV, seq<Operation>))
    ensures |r.1| == |ops|
  {
    if |ops| == 0 then (kv, [])
    else
      var k := |ops| - 1;
      var (kv', done) := RunOps(kv, ops[..k]);
      var (kv'', op) := RunOp(kv', ops[k]);
      (kv'', done + [op])
  }

  function Ran(kv: KV, inst: Instance): Instance {
    inst.(ops := RunOps(kv, inst.ops).1, state := Executed)
  }

  lemma {:induction false} RunOpsKeepsOps(kv: KV, ops: seq<Operation>)
    ensures SameOps(ops, RunOps(kv, ops).1)
  {
    if |ops| > 0 {
      RunOpsKeepsOps(kv, ops[..|ops| - 1]);
    }
  }

  // ---- executeSome ----------------------------------------------------------------------------

  predicate ValidNode(logs: Log, v: Node) {
    v.rep >= 0 && Entry(logs, v.rep, v.slot).Some?
  }

  function Inst(logs: Log, v: Node): Instance
    requires ValidNode(logs, v)
  {
    Entry(logs, v.rep, v.slot).value
  }

  // The row a dependency names holds an instance that is at least committed.
  predicate DepReady(logs: Log, rep: nat, slot: int) {
    Entry(logs, rep, slot).Some? && Entry(logs, rep, slot).value.Decided()
  }

  predicate DepsReady(logs: Log, deps: seq<int>) {
    forall rep :: 0 <= rep < |deps| && deps[rep] >= 0 ==> DepReady(logs, rep, deps[rep])
  }

  // The state reached, the nodes executed so far, and whether the search gave up.
  datatype Progress = Progress(s: Replica, trace: seq<Node>, stopped: bool)

  function Later(logs: Log, a: Node, b: Node): bool
    requires ValidNode(logs, a) && ValidNode(logs, b)
  {
    Inst(logs, a).seqNo < Inst(logs, b).seqNo
  }

  function RunNode(s: Replica, v: Node): (r: Replica)
    requires s.Valid() && ValidNode(s.logs, v)
    ensures r.Valid() && r.n == s.n && r.me == s.me
  {
    var inst := Inst(s.logs, v);
    var logs := Put(s.logs, v.rep, v.slot, Ran(s.kvmap, inst));
    var last := Node(v.rep, s.executed[v.rep]);
    s.(logs := logs, kvmap := RunOps(s.kvmap, inst.ops).0,
       executed := if last.slot == -1 || (ValidNode(logs, last) && Later(logs, last, v))
                   then s.executed[v.rep := v.slot] else s.executed)
  }

  function Visit(p: Progress, v: Node): (r: Progress)
    requires p.s.Valid()
    ensures r.s.Valid() && r.s.n == p.s.n && r.s.me == p.s.me
  {
    if p.stopped || !ValidNode(p.s.logs, v) || !Inst(p.s.logs, v).state.Committed? then p
    else if !DepsReady(p.s.logs, Inst(p.s.logs, v).deps) then p.(stopped := true)
    else Progress(RunNode(p.s, v), p.trace + [v], false)
  }

  // After the first i nodes of a component.
  function VisitAll(p: Progress, scc: seq<Node>, i: nat): (r: Progress)
    requires p.s.Valid() && i <= |scc|
    ensures r.s.Valid() && r.s.n == p.s.n && r.s.me == p.s.me
  {
    if i == 0 then p else Visit(VisitAll(p, scc, i - 1), scc[i - 1])
  }

  // After the first c components.
  function ExecuteTo(s: Replica, order: seq<seq<Node>>, c: nat): (r: Progress)
    requires s.Valid() && c <= |order|
    ensures r.s.Valid() && r.s.n == s.n && r.s.me == s.me
  {
    if c == 0 then Progress(s, [], false)
    else VisitAll(ExecuteTo(s, order, c - 1), order[c - 1], |order[c - 1]|)
  }

  function ExecuteSome(s: Replica, order: seq<seq<Node>>): (r: Replica)
    requires s.Valid()
    ensures r.Valid() && r.n == s.n && r.me == s.me
  {
    ExecuteTo(s, order, |order|).s
  }

  // Execution only turns committed entries into executed ones; reads receive their values.
  predicate EntryRan(a: Option<Instance>, b: Option<Instance>) {
    a == b || (a.Some? && b.Some? && a.value.state.Committed? && b.value.state.Executed?
        && SameDecision(a.value, b.value)
               && a.value.changed == b.value.changed)
  }

  ghost predicate OnlyRan(s: Replica, r: Replica) {
    && r == s.(logs := r.logs, kvmap := r.kvmap, executed := r.executed)
    && |r.logs| == |s.logs|
    && forall j: nat, k :: EntryRan(Entry(s.logs, j, k), Entry(r.logs, j, k))
  }

  lemma VisitRan(p: Progress, v: Node)
    requires p.s.Valid()
    ensures OnlyRan(p.s, Visit(p, v).s)
  {
    if ValidNode(p.s.logs, v) {
      RunOpsKeepsOps(p.s.kvmap, Inst(p.s.logs, v).ops);
    }
  }

  lemma OnlyRanTransitive(a: Replica, b: Replica, c: Replica)
    requires OnlyRan(a, b) && OnlyRan(b, c)
    ensures OnlyRan(a, c)
  {
    forall j: nat, k ensures EntryRan(Entry(a.logs, j, k), Entry(c.logs, j, k)) {
      assert EntryRan(Entry(a.logs, j, k), Entry(b.logs, j, k));
      assert EntryRan(Entry(b.logs, j, k), Entry(c.logs, j, k));
    }
  }

  lemma {:induction false} VisitAllRan(p: Progress, scc: seq<Node>, i: nat)
    requires p.s.Valid() && i <= |scc|
    ensures OnlyRan(p.s, VisitAll(p, scc, i).s)
  {
    if i > 0 {
      VisitAllRan(p, scc, i - 1);
      VisitRan(VisitAll(p, scc, i - 1), scc[i - 1]);
      OnlyRanTransitive(p.s, VisitAll(p, scc, i - 1).s, VisitAll(p, scc, i).s);
    }
  }

  lemma {:induction false} ExecuteToRan(s: Replica, order: seq<seq<Node>>, c: nat)
    requires s.Valid() && c <= |order|
    ensures OnlyRan(s, ExecuteTo(s, order, c).s)
  {
    if c > 0 {
      ExecuteToRan(s, order, c - 1);
      var p := ExecuteTo(s, order, c - 1);
      VisitAllRan(p, order[c - 1], |order[c - 1]|);
      OnlyRanTransitive(s, p.s, ExecuteTo(s, order, c).s);
    }
  }
}
