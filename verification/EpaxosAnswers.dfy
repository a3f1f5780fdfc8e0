/** What the map holds and what reads are answered with: the last write, told from the operations alone. */
module EpaxosAnswers {
  import opened Options
  import opened EpaxosTypes
  import opened EpaxosHandlers
  import opened EpaxosExecution
  import opened EpaxosProtocol
  import opened EpaxosTheorems
  import opened EpaxosOrder
  import opened EpaxosConvergence

  // ---- The last change of a key ---------------------------------------------------------------

  predicate Changes(op: Operation, key: string) {
    (op.kind.Write? || op.kind.Del?) && op.key == key
  }

  // Of the first n operations the j-th is the last to change the key.
  ghost predicate LastChange(ops: seq<Operation>, n: nat, key: string, j: int) {
    0 <= j < n <= |ops| && Changes(ops[j], key) && forall l :: j < l < n ==> !Changes(ops[l], key)
  }

  ghost predicate NoChange(ops: seq<Operation>, n: nat, key: string) {
    n <= |ops| && forall l :: 0 <= l < n ==> !Changes(ops[l], key)
  }

  function Lookup(kv: KV, key: string): Option<Bytes> {
    if key in kv then Some(kv[key]) else None
  }

  // A read of a key that is missing is answered with nil.
  function AnswerOf(held: Option<Bytes>): Bytes {
    match held
    case None => None
    case Some(value) => value
  }

  // After the first n operations on kv, the key holds the value of its last write, nothing if its
  // last change is a deletion, and what it held before if it was not changed.
  ghost predicate Shows(kv: KV, ops: seq<Operation>, n: nat, key: string, held: Option<Bytes>) {
    || (NoChange(ops, n, key) && held == Lookup(kv, key))
    || exists j :: LastChange(ops, n, key, j) && held == (if ops[j].kind.Write? then Some(ops[j].value) else None)
  }

  lemma ShowsOnce(kv: KV, ops: seq<Operation>, n: nat, key: string, a: Option<Bytes>, b: Option<Bytes>)
    requires Shows(kv, ops, n, key, a) && Shows(kv, ops, n, key, b)
    ensures a == b
  {
  }

  // Operation i comes back as 'done': a read with what its key holds then, any other as it was.
  ghost predicate ComesBack(kv: KV, ops: seq<Operation>, i: nat, done: Operation)
    requires i < |ops|
  {
    if ops[i].kind.Read?
    then exists held :: Shows(kv, ops, i, ops[i].key, held) && done == ops[i].(value := AnswerOf(held))
    else done == ops[i]
  }

  // ---- One batch ------------------------------------------------------------------------------

  lemma ShowsNext(kv: KV, ops: seq<Operation>, n: nat, key: string, held: Option<Bytes>)
    requires n < |ops| && Shows(kv, ops, n, key, held)
    ensures Shows(kv, ops, n + 1, key,
                  if !Changes(ops[n], key) then held else if ops[n].kind.Write? then Some(ops[n].value) else None)
  {
    if Changes(ops[n], key) {
      assert LastChange(ops, n + 1, key, n);
    } else if !NoChange(ops, n, key) {
      var j :| LastChange(ops, n, key, j) && held == (if ops[j].kind.Write? then Some(ops[j].value) else None);
      assert LastChange(ops, n + 1, key, j);
    }
  }

  lemma ShowsInPrefix(kv: KV, ops: seq<Operation>, n: nat, m: nat, key: string, held: Option<Bytes>)
    requires n <= m <= |ops|
    ensures Shows(kv, ops[..m], n, key, held) <==> Shows(kv, ops, n, key, held)
  {
    assert NoChange(ops[..m], n, key) <==> NoChange(ops, n, key);
    if j :| LastChange(ops[..m], n, key, j) && held == (if ops[j].kind.Write? then Some(ops[j].value) else None) {
      PrefixChange(ops, n, m, key, j);
    }
    if j :| LastChange(ops, n, key, j) && held == (if ops[j].kind.Write? then Some(ops[j].value) else None) {
      PrefixChange(ops, n, m, key, j);
    }
  }

  lemma PrefixChange(ops: seq<Operation>, n: nat, m: nat, key: string, j: int)
    requires n <= m <= |ops|
    ensures LastChange(ops[..m], n, key, j) <==> LastChange(ops, n, key, j)
  {
  }

  // The map after a batch: for every key its last write.
  lemma {:induction false} BatchMap(kv: KV, ops: seq<Operation>, key: string)
    ensures Shows(kv, ops, |ops|, key, Lookup(RunOps(kv, ops).0, key))
  {
    if |ops| > 0 {
      var k := |ops| - 1;
      var kv' := RunOps(kv, ops[..k]).0;
      BatchMap(kv, ops[..k], key);
      ShowsInPrefix(kv, ops, k, k, key, Lookup(kv', key));
      ShowsNext(kv, ops, k, key, Lookup(kv', key));
      LookupNext(kv', ops[k], key);
    }
  }

  lemma LookupNext(kv: KV, op: Operation, key: string)
    ensures Lookup(RunOp(kv, op).0, key) ==
            if !Changes(op, key) then Lookup(kv, key) else if op.kind.Write? then Some(op.value) else None
  {
  }

  // The answers of a batch: every read has the last write before it.
  lemma {:induction false} BatchAnswers(kv: KV, ops: seq<Operation>, i: nat)
    requires i < |ops|
    ensures ComesBack(kv, ops, i, RunOps(kv, ops).1[i])
  {
    var k := |ops| - 1;
    var prefix := ops[..k];
    if i < k {
      BatchAnswers(kv, prefix, i);
      assert RunOps(kv, ops).1[i] == RunOps(kv, prefix).1[i];
      ComesBackInPrefix(kv, ops, k, i, RunOps(kv, prefix).1[i]);
    } else {
      LastComesBack(kv, ops);
    }
  }

  lemma LastComesBack(kv: KV, ops: seq<Operation>)
    requires |ops| > 0
    ensures var k := |ops| - 1; ComesBack(kv, ops, k, RunOps(kv, ops).1[k])
  {
    var k := |ops| - 1;
    var kv', key := RunOps(kv, ops[..k]).0, ops[k].key;
    BatchMap(kv, ops[..k], key);
    ShowsInPrefix(kv, ops, k, k, key, Lookup(kv', key));
    assert RunOps(kv, ops).1[k] == RunOp(kv', ops[k]).1;
  }

  lemma BatchTells(kv: KV, ops: seq<Operation>)
    ensures forall key :: Shows(kv, ops, |ops|, key, Lookup(RunOps(kv, ops).0, key))
    ensures forall i :: 0 <= i < |ops| ==> ComesBack(kv, ops, i, RunOps(kv, ops).1[i])
  {
    forall key ensures Shows(kv, ops, |ops|, key, Lookup(RunOps(kv, ops).0, key)) {
      BatchMap(kv, ops, key);
    }
    forall i | 0 <= i < |ops| ensures ComesBack(kv, ops, i, RunOps(kv, ops).1[i]) {
      BatchAnswers(kv, ops, i);
    }
  }

  lemma ComesBackInPrefix(kv: KV, ops: seq<Operation>, m: nat, i: nat, done: Operation)
    requires i < m <= |ops|
    ensures ComesBack(kv, ops[..m], i, done) <==> ComesBack(kv, ops, i, done)
  {
    forall held ensures Shows(kv, ops[..m], i, ops[i].key, held) <==> Shows(kv, ops, i, ops[i].key, held) {
      ShowsInPrefix(kv, ops, i, m, ops[i].key, held);
    }
  }

  // ---- Batch after batch ----------------------------------------------------------------------

  lemma ShowsJoin(kv: KV, a: seq<Operation>, kv': KV, b: seq<Operation>, n: nat, key: string, held: Option<Bytes>)
    requires Shows(kv, a, |a|, key, Lookup(kv', key)) && Shows(kv', b, n, key, held)
    ensures Shows(kv, a + b, |a| + n, key, held)
  {
    var all := a + b;
    if NoChange(b, n, key) && held == Lookup(kv', key) {
      if NoChange(a, |a|, key) && held == Lookup(kv, key) {
        assert NoChange(all, |a| + n, key);
      } else {
        var j :| LastChange(a, |a|, key, j) && held == (if a[j].kind.Write? then Some(a[j].value) else None);
        assert LastChange(all, |a| + n, key, j) && all[j] == a[j];
      }
    } else {
      var j :| LastChange(b, n, key, j) && held == (if b[j].kind.Write? then Some(b[j].value) else None);
      assert all[|a| + j] == b[j];
      assert LastChange(all, |a| + n, key, |a| + j);
    }
  }

  // Values that reads were answered with do not matter.
  lemma ShowsAlike(kv: KV, a: seq<Operation>, b: seq<Operation>, n: nat, key: string, held: Option<Bytes>)
    requires SameOps(a, b) && Shows(kv, a, n, key, held)
    ensures Shows(kv, b, n, key, held)
  {
    if NoChange(a, n, key) && held == Lookup(kv, key) {
      assert NoChange(b, n, key);
    } else {
      var j :| LastChange(a, n, key, j) && held == (if a[j].kind.Write? then Some(a[j].value) else None);
      assert LastChange(b, n, key, j);
    }
  }

  function OpsOf(xs: seq<Instance>): seq<Operation> {
    if |xs| == 0 then [] else OpsOf(xs[..|xs| - 1]) + xs[|xs| - 1].ops
  }

  lemma {:induction false} OpsOfAlike(xs: seq<Instance>, ys: seq<Instance>)
    requires Alike(xs, ys)
    ensures SameOps(OpsOf(xs), OpsOf(ys))
  {
    if |xs| > 0 {
      OpsOfAlike(xs[..|xs| - 1], ys[..|ys| - 1]);
    }
  }

  lemma {:induction false} BatchesMap(kv: KV, xs: seq<Instance>, key: string)
    ensures Shows(kv, OpsOf(xs), |OpsOf(xs)|, key, Lookup(RunAll(kv, xs).0, key))
    decreases |xs|
  {
    if |xs| > 0 {
      var k := |xs| - 1;
      BatchesMap(kv, xs[..k], key);
      LastBatch(kv, xs);
      OneMoreBatch(kv, OpsOf(xs[..k]), RunAll(kv, xs[..k]).0, xs[k].ops, key);
    }
  }

  lemma OneMoreBatch(kv: KV, before: seq<Operation>, kv': KV, ops: seq<Operation>, key: string)
    requires Shows(kv, before, |before|, key, Lookup(kv', key))
    ensures var all := before + ops; Shows(kv, all, |all|, key, Lookup(RunOps(kv', ops).0, key))
  {
    BatchMap(kv', ops, key);
    ShowsJoin(kv, before, kv', ops, |ops|, key, Lookup(RunOps(kv', ops).0, key));
  }

  lemma LastBatch(kv: KV, xs: seq<Instance>)
    requires |xs| > 0
    ensures var k := |xs| - 1;
      RunAll(kv, xs).0 == RunOps(RunAll(kv, xs[..k]).0, xs[k].ops).0
  {
    var k := |xs| - 1;
    assert xs == xs[..k] + [xs[k]];
    RunAllSplit(kv, xs[..k], [xs[k]]);
    RunCons(RunAll(kv, xs[..k]).0, xs[k], []);
    assert [xs[k]] + [] == [xs[k]];
  }

  // What batch a comes back as.
  lemma BatchAt(kv: KV, xs: seq<Instance>, a: nat)
    requires a < |xs|
    ensures RunAll(kv, xs).1[a].ops == RunOps(RunAll(kv, xs[..a]).0, xs[a].ops).1
  {
    var before, kv' := xs[..a], RunAll(kv, xs[..a]).0;
    assert xs == before + ([xs[a]] + xs[a + 1..]);
    RunAllSplit(kv, before, [xs[a]] + xs[a + 1..]);
    RunCons(kv', xs[a], xs[a + 1..]);
  }

  // ---- Along a run ----------------------------------------------------------------------------

  // In every state of a run, each key of a replica's map holds the value of the last write to it in
  // the replica's execution history, and is missing if it was never written or deleted last.
  lemma MapIsLastWrites(n: nat, run: seq<System>, evs: seq<Event>, r: nat, k: nat, key: string)
    requires IsRun(n, run, evs) && r < n && k <= |evs|
    ensures run[k].Valid() && run[k].n == n
    ensures var s, ns := run[k].reps[r], History(run, evs, r, k);
      && (forall v :: v in ns ==> ValidNode(s.logs, v))
      && var ops := OpsOf(Logged(s.logs, ns)); Shows(map[], ops, |ops|, key, Lookup(s.kvmap, key))
  {
    HistoryIsLedger(n, run, evs, r, k);
    LedgerMap(run[k].reps[r], History(run, evs, r, k), key);
  }

  lemma LedgerMap(s: Replica, ns: seq<Node>, key: string)
    requires Ledger(s, ns)
    ensures forall v :: v in ns ==> ValidNode(s.logs, v)
    ensures var ops := OpsOf(Logged(s.logs, ns)); Shows(map[], ops, |ops|, key, Lookup(s.kvmap, key))
  {
    LedgerAlike(s, ns);
    var xs, ys := Plains(s.logs, ns), Logged(s.logs, ns);
    BatchesMapAlike(xs, ys, key);
  }

  lemma LedgerAlike(s: Replica, ns: seq<Node>)
    requires Ledger(s, ns)
    ensures forall v :: v in ns ==> ValidNode(s.logs, v)
    ensures Alike(Plains(s.logs, ns), Logged(s.logs, ns))
  {
    forall v | v in ns ensures ValidNode(s.logs, v) {
      assert IsExecuted(s.logs, v);
    }
    forall i | 0 <= i < |ns| ensures SameOps(Plains(s.logs, ns)[i].ops, Logged(s.logs, ns)[i].ops) {
      assert ns[i] in ns;
    }
  }

  // Read i of the a-th instance the replica ran was answered with the last write to its key before
  // it: in its own batch, or in the history before that.
  lemma AnswerIsLastWrite(n: nat, run: seq<System>, evs: seq<Event>, r: nat, k: nat, a: nat, i: nat)
    requires IsRun(n, run, evs) && r < n && k <= |evs| && a < |History(run, evs, r, k)|
    ensures run[k].Valid() && run[k].n == n
    ensures var s, ns := run[k].reps[r], History(run, evs, r, k);
      && (forall v :: v in ns ==> ValidNode(s.logs, v))
      && var ops, before := Inst(s.logs, ns[a]).ops, OpsOf(Logged(s.logs, ns)[..a]);
         i < |ops| && ops[i].kind.Read? ==> AnsweredBy(before, ops, i)
  {
    HistoryIsLedger(n, run, evs, r, k);
    LedgerAnswer(run[k].reps[r], History(run, evs, r, k), a, i);
  }

  ghost predicate AnsweredBy(before: seq<Operation>, ops: seq<Operation>, i: nat)
    requires i < |ops|
  {
    exists held :: Shows(map[], before + ops, |before| + i, ops[i].key, held) && ops[i].value == AnswerOf(held)
  }

  lemma LedgerAnswer(s: Replica, ns: seq<Node>, a: nat, i: nat)
    requires Ledger(s, ns) && a < |ns|
    ensures forall v :: v in ns ==> ValidNode(s.logs, v)
    ensures var ops, before := Inst(s.logs, ns[a]).ops, OpsOf(Logged(s.logs, ns)[..a]);
      i < |ops| && ops[i].kind.Read? ==> AnsweredBy(before, ops, i)
  {
    LedgerAlike(s, ns);
    var xs, ys := Plains(s.logs, ns), Logged(s.logs, ns);
    var ops := ys[a].ops;
    if i < |ops| && ops[i].kind.Read? {
      BatchAt(map[], xs, a);
      assert RunAll(map[], xs).1[a].ops == ops;
      PlainAnswer(xs[..a], ys[..a], xs[a].ops, ops, i);
    }
  }

  lemma PlainAnswer(xs: seq<Instance>, ys: seq<Instance>, plain: seq<Operation>, ops: seq<Operation>, i: nat)
    requires Alike(xs, ys) && SameOps(plain, ops) && i < |ops| && ops[i].kind.Read?
    requires RunOps(RunAll(map[], xs).0, plain).1 == ops
    ensures AnsweredBy(OpsOf(ys), ops, i)
  {
    var kv, key := RunAll(map[], xs).0, ops[i].key;
    BatchAnswers(kv, plain, i);
    var held :| Shows(kv, plain, i, key, held) && ops[i] == plain[i].(value := AnswerOf(held));
    BatchesMapAlike(xs, ys, key);
    JoinAlike(OpsOf(ys), kv, plain, ops, i, key, held);
  }

  lemma JoinAlike(before: seq<Operation>, kv: KV, plain: seq<Operation>, ops: seq<Operation>, i: nat, key: string,
                  held: Option<Bytes>)
    requires SameOps(plain, ops) && Shows(kv, plain, i, key, held)
    requires Shows(map[], before, |before|, key, Lookup(kv, key))
    ensures Shows(map[], before + ops, |before| + i, key, held)
  {
    ShowsAlike(kv, plain, ops, i, key, held);
    ShowsJoin(map[], before, kv, ops, i, key, held);
  }

  lemma BatchesMapAlike(xs: seq<Instance>, ys: seq<Instance>, key: string)
    requires Alike(xs, ys)
    ensures Shows(map[], OpsOf(ys), |OpsOf(ys)|, key, Lookup(RunAll(map[], xs).0, key))
  {
    BatchesMap(map[], xs, key);
    OpsOfAlike(xs, ys);
    ShowsAlike(map[], OpsOf(xs), OpsOf(ys), |OpsOf(xs)|, key, Lookup(RunAll(map[], xs).0, key));
  }
}
