/** The records an EPaxos replica logs and sends, and the two-dimensional log they live in. */
module EpaxosTypes {
  import opened Options

  // A nil byte slice is None.
  type Bytes = Option<seq<bv8>>

  datatype AccessType = Write | Read | WriteRead | Del | Pause | Null

  datatype Operation = Operation(kind: AccessType, key: string, value: Bytes)

  datatype InstState = Initial | PreAccepted | Accepted | Committed | Executed
  {
    function Rank(): nat {
      match this
      case Initial => 0
      case PreAccepted => 1
      case Accepted => 2
      case Committed => 3
      case Executed => 4
    }
  }

  datatype Instance = Instance(
    rep: nat, slot: nat, seqNo: int, deps: seq<int>,
    ops: seq<Operation>, changed: bool, state: InstState)
  {
    // The instance is fixed: committed, whether or not it already ran.
    predicate Decided() {
      state.Committed? || state.Executed?
    }
  }

  datatype Message =
    | PreAccept(inst: Instance)
    | PreAcceptReply(slot: nat, seqNo: int, deps: seq<int>, changed: bool)
    | Accept(inst: Instance)
    | AcceptReply(slot: nat)
    | Commit(inst: Instance)

  // One row per command leader; a hole is None.
  type Row = seq<Option<Instance>>
  type Log = seq<Row>

  function Entry(logs: Log, rep: nat, slot: int): Option<Instance> {
    if rep < |logs| && 0 <= slot < |logs[rep]| then logs[rep][slot] else None
  }

  // The row, padded with holes so that index slot exists.
  function Padded(row: Row, slot: nat): Row {
    if |row| <= slot then row + seq(slot + 1 - |row|, _ => None) else row
  }

  function Put(logs: Log, rep: nat, slot: nat, inst: Instance): (r: Log)
    requires rep < |logs|
    ensures |r| == |logs|
    ensures forall j: nat, k :: Entry(r, j, k) == if j == rep && k == slot then Some(inst) else Entry(logs, j, k)
  {
    logs[rep := Padded(logs[rep], slot)[slot := Some(inst)]]
  }

  lemma PutTwice(logs: Log, rep: nat, slot: nat, x: Instance, y: Instance)
    requires rep < |logs|
    ensures Put(Put(logs, rep, slot, x), rep, slot, y) == Put(logs, rep, slot, y)
  {
    var row := Padded(logs[rep], slot);
    assert row[slot := Some(x)][slot := Some(y)] == row[slot := Some(y)];
  }

  function Max(x: int, y: int): int {
    if x > y then x else y
  }

  // Pointwise maximum of two dependency vectors of the same length.
  function JoinDeps(a: seq<int>, b: seq<int>): (r: seq<int>)
    requires |a| == |b|
    ensures |r| == |a|
  {
    seq(|a|, i requires 0 <= i < |a| => Max(a[i], b[i]))
  }

  predicate DepsBelow(a: seq<int>, b: seq<int>) {
    |a| == |b| && forall i :: 0 <= i < |a| ==> a[i] <= b[i]
  }

  // Equal but for the value a read was answered with.
  predicate SameOps(a: seq<Operation>, b: seq<Operation>) {
    |a| == |b| &&
    forall i :: 0 <= i < |a| ==>
      a[i].kind == b[i].kind && a[i].key == b[i].key && (a[i].kind.Read? || a[i].value == b[i].value)
  }

  // What replicas agree on about a committed instance.
  predicate SameDecision(a: Instance, b: Instance) {
    a.rep == b.rep && a.slot == b.slot && a.seqNo == b.seqNo && a.deps == b.deps && SameOps(a.ops, b.ops)
  }

  predicate Conflict(a: seq<Operation>, b: seq<Operation>) {
    exists i, j :: 0 <= i < |a| && 0 <= j < |b| && a[i].key == b[j].key
  }

  lemma SameOpsConflict(a: seq<Operation>, a': seq<Operation>, b: seq<Operation>, b': seq<Operation>)
    requires SameOps(a, a') && SameOps(b, b')
    ensures Conflict(a, b) == Conflict(a', b')
  {
    if Conflict(a, b) {
      var i, j :| 0 <= i < |a| && 0 <= j < |b| && a[i].key == b[j].key;
      assert a'[i].key == b'[j].key;
    }
    if Conflict(a', b') {
      var i, j :| 0 <= i < |a'| && 0 <= j < |b'| && a'[i].key == b'[j].key;
      assert a[i].key == b[j].key;
    }
  }

  lemma ConflictSymmetric(a: seq<Operation>, b: seq<Operation>)
    ensures Conflict(a, b) == Conflict(b, a)
  {
    if Conflict(a, b) {
      var i, j :| 0 <= i < |a| && 0 <= j < |b| && a[i].key == b[j].key;
      assert b[j].key == a[i].key;
    }
    if Conflict(b, a) {
      var j, i :| 0 <= j < |b| && 0 <= i < |a| && b[j].key == a[i].key;
      assert a[i].key == b[j].key;
    }
  }
}
