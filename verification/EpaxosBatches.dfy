/** One proposer at work: batches of one key leave replicas alike, a batch of two keys can part them. */
module EpaxosBatches {
  import opened Options
  import opened EpaxosTypes
  import opened EpaxosScan
  import opened EpaxosExecution
  import opened EpaxosProtocol
  import opened EpaxosTheorems
  import opened EpaxosOrder
  import opened EpaxosConvergence
  import opened EpaxosLinks
  import opened EpaxosCrossing
  import opened EpaxosRounds
  import opened EpaxosLone

  // ---- Batches of one key ---------------------------------------------------------------------

  lemma {:induction false} DecisionAt(batches: seq<seq<Operation>>, k: nat, i: nat)
    requires i < k <= |batches|
    ensures Decisions(batches, k)[i].Some? && Decisions(batches, k)[i].value.ops == batches[i]
    decreases k
  {
    if i < k - 1 {
      DecisionAt(batches, k - 1, i);
    }
  }

  function Upwards(k: nat): seq<nat> {
    seq(k, i requires 0 <= i < k => i)
  }

  lemma UpwardsIsInOrder(row: Row)
    requires Orderly(row)
    ensures InOrder(row, Upwards(|row|))
  {
    var slots := Upwards(|row|);
    forall i | 0 <= i < |slots| && row[slots[i]].value.deps[0] >= 0 ensures row[slots[i]].value.deps[0] in slots[..i] {
      var d := row[i].value.deps[0];
      assert slots[..i][d] == d;
    }
  }

  lemma InUpwards(k: nat, i: int)
    ensures i in Upwards(k) <==> 0 <= i < k
  {
    if 0 <= i < k {
      assert Upwards(k)[i] == i;
    }
  }

  // However many batches replica 0 proposes, if each is about one key: a run decides and executes them
  // all at both replicas, and links lead from each to every later one that shares its key.
  lemma BatchesAreChained(batches: seq<seq<Operation>>) returns (run: seq<System>, evs: seq<Event>)
    requires forall ops :: ops in batches ==> OneKey(ops)
    ensures IsRun(2, run, evs) && Disciplined(run, evs) && LoneProposer(evs, 0) && SameExecuted(run[|evs|], 0, 1)
    ensures ConflictsChained(run[|evs|].reps[0].logs) && AllRanAt(run[|evs|].reps[0].logs, batches)
  {
    var k := |batches|;
    var row := Decisions(batches, k);
    DecisionsOrderly(batches, k);
    UpwardsIsInOrder(row);
    assert |row| == k;
    run, evs := RoundsRun(batches, Upwards(k), Upwards(k));
    LoneIsChained(2, run, evs, 0, 0);
    forall i | 0 <= i < k ensures row[i].value.ops == batches[i] {
      DecisionAt(batches, k, i);
    }
    AllRan(run[|evs|].reps[0].logs, row, batches);
  }

  // The log's executed instances are the batches, one each, as the first row of the log.
  ghost predicate AllRanAt(logs: Log, batches: seq<seq<Operation>>) {
    && (forall v :: IsExecuted(logs, v) <==> v.rep == 0 && 0 <= v.slot < |batches|)
    && forall i :: 0 <= i < |batches| ==> BatchRanAt(logs, batches[i], i)
  }

  ghost predicate BatchRanAt(logs: Log, ops: seq<Operation>, i: int) {
    IsExecuted(logs, Node(0, i)) && SameOps(ops, Inst(logs, Node(0, i)).ops)
  }

  lemma AllRan(logs: Log, row: Row, batches: seq<seq<Operation>>)
    requires Orderly(row) && |row| == |batches|
    requires forall i :: 0 <= i < |row| ==> row[i].value.ops == batches[i]
    requires forall v :: IsExecuted(logs, v) <==> v.rep == 0 && v.slot in Upwards(|batches|)
    requires forall v :: IsExecuted(logs, v) ==>
      0 <= v.slot < |row| && SameDecision(row[v.slot].value, Inst(logs, v))
    ensures AllRanAt(logs, batches)
  {
    forall v ensures IsExecuted(logs, v) <==> v.rep == 0 && 0 <= v.slot < |batches| {
      InUpwards(|batches|, v.slot);
    }
    forall i | 0 <= i < |batches| ensures BatchRanAt(logs, batches[i], i) {
      assert IsExecuted(logs, Node(0, i));
    }
  }

  // ---- A batch of two keys --------------------------------------------------------------------

  datatype Trio = Trio(a: string, b: string, x: Bytes, y: Bytes, z: Bytes)
  {
    function OnA(): seq<Operation> { Put1(a, x) }
    function OnB(): seq<Operation> { Put1(b, y) }
    function OnBoth(): seq<Operation> { [Operation(Write, a, z), Operation(Write, b, z)] }
    function Batches(): seq<seq<Operation>> { [OnA(), OnB(), OnBoth()] }

    function First(): Instance { Instance(0, 0, 1, [-1, -1], OnA(), false, Committed) }
    function Second(): Instance { Instance(0, 1, 1, [-1, -1], OnB(), false, Committed) }
    // It conflicts with both and depends on the second alone.
    function Third(): Instance { Instance(0, 2, 2, [1, -1], OnBoth(), false, Committed) }
    function Three(): Row { [Some(First()), Some(Second()), Some(Third())] }
  }

  lemma NoConflict(row: Row, ops: seq<Operation>)
    requires forall i :: 0 <= i < |row| && row[i].Some? ==> !Conflict(row[i].value.ops, ops)
    ensures Scan([row, []], ops) == (0, [-1, -1])
  {
    ScanMeaning([row, []], ops);
    var deps := Scan([row, []], ops).1;
    assert deps == [deps[0], deps[1]];
  }

  lemma LastConflict(t: Trio)
    ensures Scan([[Some(t.First()), Some(t.Second())], []], t.OnBoth()) == (1, [1, -1])
  {
    var logs: Log := [[Some(t.First()), Some(t.Second())], []];
    var ops := t.OnBoth();
    assert t.First().ops[0].key == ops[0].key && t.Second().ops[0].key == ops[1].key;
    assert ConflictAt(logs, 0, 0, ops) && ConflictAt(logs, 0, 1, ops);
    assert SeqAt(logs, 0, 0) == 1 && SeqAt(logs, 0, 1) == 1;
    ScanMeaning(logs, ops);
    assert Chosen(logs, ops, 0, 1);
    var deps := Scan(logs, ops).1;
    ChosenUnique(logs, ops, 0, 1, deps[0]);
    assert deps == [deps[0], deps[1]];
  }

  lemma ThreeDecided(t: Trio)
    requires t.a != t.b
    ensures Decisions(t.Batches(), 3) == t.Three()
  {
    var batches, k := t.Batches(), 3;
    NoConflict([], t.OnA());
    assert Decisions(batches, k - 2) == [Some(t.First())];
    NoConflict([Some(t.First())], t.OnB());
    assert Decisions(batches, k - 1) == [Some(t.First()), Some(t.Second())];
    LastConflict(t);
  }

  lemma ThreeInOrder(t: Trio)
    ensures InOrder(t.Three(), [0, 1, 2]) && InOrder(t.Three(), [1, 2, 0])
  {
    var up, other := [0, 1, 2], [1, 2, 0];
    assert up[..2][1] == 1 && other[..1][0] == 1;
  }

  // What the key a holds after a last instance that writes it once.
  lemma LastWrites(kv: KV, xs: seq<Instance>, x: Instance, key: string, value: Bytes)
    requires forall kv': KV :: key in RunOps(kv', x.ops).0 && RunOps(kv', x.ops).0[key] == value
    ensures key in RunAll(kv, xs + [x]).0 && RunAll(kv, xs + [x]).0[key] == value
  {
    RunAllSplit(kv, xs, [x]);
    RunCons(RunAll(kv, xs).0, x, []);
    assert [x] + [] == [x];
  }

  lemma WritesBoth(t: Trio, kv: KV)
    requires t.a != t.b
    ensures var kv' := RunOps(kv, t.OnBoth()).0; t.a in kv' && kv'[t.a] == t.z
  {
    var ops := t.OnBoth();
    var k := |ops| - 1;
    assert ops[..k] == [Operation(Write, t.a, t.z)];
    OneWrite(kv, ops[..k]);
  }

  lemma ThreeEitherWay(t: Trio)
    requires t.a != t.b
    ensures var m, m' := RunAll(map[], Listed(t.Three(), [0, 1, 2])).0, RunAll(map[], Listed(t.Three(), [1, 2, 0])).0;
      t.a in m && m[t.a] == t.z && t.a in m' && m'[t.a] == t.x
  {
    forall kv: KV ensures t.a in RunOps(kv, t.Third().ops).0 && RunOps(kv, t.Third().ops).0[t.a] == t.z {
      WritesBoth(t, kv);
    }
    forall kv: KV ensures t.a in RunOps(kv, t.First().ops).0 && RunOps(kv, t.First().ops).0[t.a] == t.x {
      OneWrite(kv, t.OnA());
    }
    LastWrites(map[], [t.First(), t.Second()], t.Third(), t.a, t.z);
    LastWrites(map[], [t.Second(), t.Third()], t.First(), t.a, t.x);
    assert Listed(t.Three(), [0, 1, 2]) == [t.First(), t.Second()] + [t.Third()];
    assert Listed(t.Three(), [1, 2, 0]) == [t.Second(), t.Third()] + [t.First()];
  }

  // One replica proposes a write of a, a write of b, and a write of both. The third depends on the
  // second only, so nothing orders it against the first: the replicas' data come apart.
  lemma BatchesDiverge(t: Trio) returns (run: seq<System>, evs: seq<Event>)
    requires t.a != t.b && t.x != t.z
    ensures IsRun(2, run, evs) && Disciplined(run, evs) && OnlyProposes(evs, t.Batches())
    ensures SameExecuted(run[|evs|], 0, 1) && run[|evs|].reps[0].kvmap != run[|evs|].reps[1].kvmap
  {
    ThreeDecided(t);
    ThreeInOrder(t);
    ThreeEitherWay(t);
    run, evs := RoundsRun(t.Batches(), [0, 1, 2], [1, 2, 0]);
    assert forall k: nat :: k in [0, 1, 2] <==> k in [1, 2, 0];
  }
}
