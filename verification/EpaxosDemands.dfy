/** What a replica's log demands of a record, and what a proposal and a pre-accept make of it. */
module EpaxosDemands {
  import opened Options
  import opened EpaxosTypes
  import opened EpaxosScan
  import opened EpaxosHandlers

  // ---- What a log demands of operations -------------------------------------------------------

  // The Seq of a record, or its dependency in one row.
  datatype Part = SeqPart | DepPart(row: nat)

  predicate Within(c: Part, n: nat) {
    c.DepPart? ==> c.row < n
  }

  function Of(x: Instance, c: Part): int
    requires Within(c, |x.deps|)
  {
    match c
    case SeqPart => x.seqNo
    case DepPart(r) => x.deps[r]
  }

  // The Seq just above every conflict; the dependency that stands out in the row, or -1 if none does.
  ghost predicate Demanded(logs: Log, ops: seq<Operation>, c: Part, v: int) {
    match c
    case SeqPart => IsMaxSeq(logs, ops, v - 1)
    case DepPart(r) => if v == -1 then forall i :: !Chosen(logs, ops, r, i) else Chosen(logs, ops, r, v)
  }

  lemma KeysDemand(logs: Log, ops: seq<Operation>, ops': seq<Operation>, c: Part, v: int)
    requires SameOps(ops, ops')
    ensures Demanded(logs, ops, c, v) <==> Demanded(logs, ops', c, v)
  {
    SameConflicts(logs, ops, ops');
    match c
    case SeqPart => SameMaximum(logs, ops, ops', v - 1);
    case DepPart(r) =>
      forall i ensures Chosen(logs, ops, r, i) <==> Chosen(logs, ops', r, i) {
        SameChoice(logs, ops, ops', r, i);
      }
  }

  ghost predicate ConflictAlike(logs: Log, ops: seq<Operation>, ops': seq<Operation>) {
    forall r, i :: ConflictAt(logs, r, i, ops) <==> ConflictAt(logs, r, i, ops')
  }

  lemma SameMaximum(logs: Log, ops: seq<Operation>, ops': seq<Operation>, m: int)
    requires ConflictAlike(logs, ops, ops')
    ensures IsMaxSeq(logs, ops, m) <==> IsMaxSeq(logs, ops', m)
  {
    if m > 0 {
      assert forall r, i :: ConflictAt(logs, r, i, ops) ==> ConflictAt(logs, r, i, ops');
      assert forall r, i :: ConflictAt(logs, r, i, ops') ==> ConflictAt(logs, r, i, ops);
    }
  }

  lemma SameChoice(logs: Log, ops: seq<Operation>, ops': seq<Operation>, r: int, i: int)
    requires ConflictAlike(logs, ops, ops')
    ensures Chosen(logs, ops, r, i) <==> Chosen(logs, ops', r, i)
  {
  }

  lemma SameConflicts(logs: Log, ops: seq<Operation>, ops': seq<Operation>)
    requires SameOps(ops, ops')
    ensures ConflictAlike(logs, ops, ops')
  {
    forall r, i ensures ConflictAt(logs, r, i, ops) <==> ConflictAt(logs, r, i, ops') {
      if 0 <= r < |logs| && 0 <= i < |logs[r]| && logs[r][i].Some? {
        SameOpsConflict(logs[r][i].value.ops, logs[r][i].value.ops, ops, ops');
      }
    }
  }

  // ---- What a handler makes of it -------------------------------------------------------------

  // Each part of e is the larger of x's and what the log demands, and e is marked as changed if x was,
  // or is not just what the log demands.
  ghost predicate Joins(logs: Log, x: Instance, e: Instance) {
    && |x.deps| == |e.deps| == |logs| && e == x.(seqNo := e.seqNo, deps := e.deps, changed := e.changed)
    && (forall c :: Within(c, |logs|) ==> PartJoins(logs, x, e, c))
    && (e.changed <==> x.changed || exists c :: Within(c, |logs|) && !Demanded(logs, x.ops, c, Of(x, c)))
  }

  ghost predicate PartJoins(logs: Log, x: Instance, e: Instance, c: Part)
    requires Within(c, |x.deps|) && Within(c, |e.deps|)
  {
    && Of(e, c) >= Of(x, c) && (forall v :: Demanded(logs, x.ops, c, v) ==> Of(e, c) >= v)
    && (Of(e, c) == Of(x, c) || Demanded(logs, x.ops, c, Of(e, c)))
  }

  lemma ScanDemands(logs: Log, ops: seq<Operation>)
    ensures var (m, deps) := Scan(logs, ops);
      && |deps| == |logs|
      && (forall v :: Demanded(logs, ops, SeqPart, v) <==> v == m + 1)
      && forall r: nat, v :: r < |logs| ==> (Demanded(logs, ops, DepPart(r), v) <==> v == deps[r])
  {
    ScanMeaning(logs, ops);
    var (m, deps) := Scan(logs, ops);
    forall r: nat, v | r < |logs| ensures Demanded(logs, ops, DepPart(r), v) <==> v == deps[r] {
      if deps[r] != -1 && v != -1 && Chosen(logs, ops, r, v) {
        ChosenUnique(logs, ops, r, v, deps[r]);
      }
    }
    forall v ensures Demanded(logs, ops, SeqPart, v) <==> v == m + 1 {
    }
  }

  lemma MergedJoins(logs: Log, x: Instance)
    requires |x.deps| == |logs|
    ensures Joins(logs, x, Merged(logs, x))
  {
    ScanDemands(logs, x.ops);
    var (m, deps) := Scan(logs, x.ops);
    var e := Merged(logs, x);
    forall c | Within(c, |logs|) ensures PartJoins(logs, x, e, c) {
    }
    if x.seqNo != m + 1 {
      assert !Demanded(logs, x.ops, SeqPart, Of(x, SeqPart));
    }
    if x.deps != deps {
      var r :| 0 <= r < |deps| && x.deps[r] != deps[r];
      assert !Demanded(logs, x.ops, DepPart(r), Of(x, DepPart(r)));
    }
  }

  // t is s after a pre-accept of x: what it logs, and answers to the leader alone, is x joined with
  // what its own log demands.
  ghost predicate HasPreAccepted(s: Replica, t: Replica, from: nat, x: Instance)
    requires s.Valid()
  {
    var e := Entry(t.logs, x.rep, x.slot);
    && e.Some? && Joins(s.logs, x, e.value) && |t.out| == s.n
    && forall j: nat :: j < s.n ==>
         t.out[j] == if j == from then s.out[j] + [PreAcceptReply(x.slot, e.value.seqNo, e.value.deps, e.value.changed)]
                     else s.out[j]
  }

  lemma PeerJoins(s: Replica, from: nat, x: Instance)
    requires s.Valid() && from < s.n && Fits(s, x)
    ensures HasPreAccepted(s, OnPreAccept(s, from, x), from, x)
  {
    MergedJoins(s.logs, x);
  }

  // A proposal is just what the leader's log demands.
  lemma ProposalDemanded(s: Replica, ops: seq<Operation>, c: Part)
    requires s.Valid() && Within(c, s.n)
    ensures var b := Proposal(s, ops); |b.deps| == s.n && Demanded(s.logs, ops, c, Of(b, c))
    ensures forall v :: Demanded(s.logs, ops, c, v) ==> v == Of(Proposal(s, ops), c)
  {
    ScanDemands(s.logs, ops);
  }

  // j is one of the n/2 replicas after 'me', counting round.
  predicate ComesAfter(n: nat, me: nat, j: nat) {
    if me < j then j - me <= n / 2 else j < me && j + n - me <= n / 2
  }

  lemma ThriftyComesAfter(n: nat, me: nat, j: nat)
    requires n >= 2 && me < n && j < n
    ensures j in Thrifty(n, me) <==> ComesAfter(n, me, j)
  {
    forall i: nat | i < n / 2
      ensures Thrifty(n, me)[i] == if i + 1 + me < n then i + 1 + me else i + 1 + me - n
    {
      ThriftyAt(n, me, i);
    }
    if ComesAfter(n, me, j) {
      var k := if me < j then j - me - 1 else j + n - me - 1;
      assert Thrifty(n, me)[k] == j;
    }
  }

  // t is s after a proposal: a record with just what the log demands in the leader's next slot, and a
  // pre-accept of it to the n/2 replicas after the leader and to no other.
  ghost predicate HasProposed(s: Replica, t: Replica, ops: seq<Operation>)
    requires s.Valid()
  {
    var x := Entry(t.logs, s.me, |s.logs[s.me]|);
    && x.Some? && |x.value.deps| == s.n && |t.out| == s.n
    && x.value == Instance(s.me, |s.logs[s.me]|, x.value.seqNo, x.value.deps, ops, false, PreAccepted)
    && (forall c :: Within(c, s.n) ==> Demanded(s.logs, ops, c, Of(x.value, c)))
    && forall j: nat :: j < s.n ==>
         t.out[j] == if ComesAfter(s.n, s.me, j) then s.out[j] + [PreAccept(x.value)] else s.out[j]
  }

  lemma ProposalMeets(s: Replica, ops: seq<Operation>)
    requires s.Valid()
    ensures HasProposed(s, Propose(s, ops), ops)
  {
    var t, b := Propose(s, ops), Proposal(s, ops);
    assert Entry(t.logs, s.me, b.slot) == Some(b);
    forall c | Within(c, s.n) ensures |b.deps| == s.n && Demanded(s.logs, ops, c, Of(b, c)) {
      ProposalDemanded(s, ops, c);
    }
    forall j: nat | j < s.n
      ensures t.out[j] == if ComesAfter(s.n, s.me, j) then s.out[j] + [PreAccept(b)] else s.out[j]
    {
      ThriftyComesAfter(s.n, s.me, j);
    }
  }

  lemma MergedPart(logs: Log, b: Instance, c: Part)
    requires |b.deps| == |logs| && Within(c, |logs|)
    ensures |Merged(logs, b).deps| == |logs|
    ensures Of(Merged(logs, b), c) == Of(b, c) || Demanded(logs, b.ops, c, Of(Merged(logs, b), c))
    ensures forall v :: Demanded(logs, b.ops, c, v) ==> Of(Merged(logs, b), c) >= v
  {
    MergedJoins(logs, b);
    assert PartJoins(logs, b, Merged(logs, b), c);
  }
}
