/** The state of one replica and what each handler makes of it. */
module EpaxosHandlers {
  import opened EpaxosTypes
  import opened EpaxosScan

  datatype Replica = Replica(
    n: nat, me: nat,
    logs: Log,
    replyCount: map<int, int>,
    committed: map<int, bool>,
    pending: multiset<int>,          // commits launched with 'go' that have not run yet
    out: seq<seq<Message>>,          // out[j]: what this replica sent to j and j has not taken yet
    kvmap: map<string, Bytes>,
    executed: seq<int>)
  {
    predicate Valid() {
      n >= 2 && me < n && |logs| == n && |out| == n && |executed| == n
    }

    predicate IsCommitted(slot: int) {
      slot in committed && committed[slot]
    }

    function Count(slot: int): int {
      if slot in replyCount then replyCount[slot] else 0
    }
  }

  function Fresh(n: nat, me: nat): Replica {
    Replica(n, me, seq(n, _ => []), map[], map[], multiset{}, seq(n, _ => []), map[], seq(n, _ => -1))
  }

  // The next N/2 replicas after me, wrapping around.
  function Thrifty(n: nat, me: nat): (r: seq<int>)
    requires n >= 1
    ensures |r| == n / 2
  {
    seq(n / 2, i => (i + 1 + me) % n)
  }

  function Others(n: nat, me: nat): seq<int>
    requires me < n
  {
    seq(n - 1, i => if i < me then i else i + 1)
  }

  lemma PositiveFactor(a: int, n: nat)
    requires n > 0 && a * n > 0
    ensures a > 0
  {
  }

  lemma WrapOnce(x: nat, n: nat)
    requires 0 < n && x < 2 * n
    ensures x % n == if x < n then x else x - n
  {
    if x >= n {
      var q := x / n;
      assert x == q * n + x % n;
      assert (2 - q) * n == 2 * n - q * n;
      PositiveFactor(q, n);
      PositiveFactor(2 - q, n);
    }
  }

  // The i-th thrifty replica, without the modulus.
  lemma ThriftyAt(n: nat, me: nat, i: nat)
    requires n >= 2 && me < n && i < n / 2
    ensures Thrifty(n, me)[i] == if i + 1 + me < n then i + 1 + me else i + 1 + me - n
  {
    WrapOnce(i + 1 + me, n);
  }

  lemma PeerIsNotMe(n: nat, me: nat)
    requires n >= 2 && me < n
    ensures me !in Thrifty(n, me)
  {
    forall i | 0 <= i < n / 2 ensures Thrifty(n, me)[i] != me {
      ThriftyAt(n, me, i);
    }
  }

  lemma InOthers(n: nat, me: nat, j: int)
    requires me < n
    ensures j in Others(n, me) <==> 0 <= j < n && j != me
  {
    if 0 <= j < me {
      assert Others(n, me)[j] == j;
    } else if me < j < n {
      assert Others(n, me)[j - 1] == j;
    }
  }

  function Send(out: seq<seq<Message>>, dests: seq<int>, m: Message): (r: seq<seq<Message>>)
    ensures |r| == |out|
  {
    seq(|out|, j requires 0 <= j < |out| => if j in dests then out[j] + [m] else out[j])
  }

  predicate Majority(n: nat, count: int) {
    count * 2 + 1 >= n
  }

  // A record the replica can log: it names a row and has one dependency per row.
  predicate Fits(s: Replica, inst: Instance) {
    inst.rep < s.n && |inst.deps| == s.n
  }

  // The next instance of its own that a replica proposes: above every conflict it logs.
  function Proposal(s: Replica, ops: seq<Operation>): Instance
    requires s.Valid()
  {
    var (m, deps) := Scan(s.logs, ops);
    Instance(s.me, |s.logs[s.me]|, m + 1, deps, ops, false, PreAccepted)
  }

  function Propose(s: Replica, ops: seq<Operation>): (r: Replica)
    requires s.Valid()
    ensures r.Valid()
  {
    var inst := Proposal(s, ops);
    s.(logs := Put(s.logs, s.me, inst.slot, inst), out := Send(s.out, Thrifty(s.n, s.me), PreAccept(inst)))
  }

  // The leader's record merged with what this replica's own log demands.
  function Merged(logs: Log, inst: Instance): Instance
    requires |inst.deps| == |logs|
  {
    var (m, deps) := Scan(logs, inst.ops);
    inst.(seqNo := Max(inst.seqNo, m + 1),
          deps := JoinDeps(inst.deps, deps),
          changed := inst.changed || inst.seqNo != m + 1 || inst.deps != deps)
  }

  function OnPreAccept(s: Replica, from: nat, inst: Instance): (r: Replica)
    requires s.Valid() && from < s.n && Fits(s, inst)
    ensures r.Valid()
  {
    var x := Merged(s.logs, inst);
    s.(logs := Put(s.logs, x.rep, x.slot, x),
       out := Send(s.out, [from], PreAcceptReply(x.slot, x.seqNo, x.deps, x.changed)))
  }

  // The leader still has the instance it is being answered about.
  predicate Awaits(s: Replica, slot: nat) {
    Entry(s.logs, s.me, slot).Some? && Entry(s.logs, s.me, slot).value.slot == slot
    && |Entry(s.logs, s.me, slot).value.deps| == s.n
  }

  function Absorb(e: Instance, seqNo: int, deps: seq<int>, changed: bool): Instance
    requires |e.deps| == |deps|
  {
    if changed then e.(seqNo := Max(e.seqNo, seqNo), deps := JoinDeps(e.deps, deps), changed := true) else e
  }

  function OnPreAcceptReply(s: Replica, slot: nat, seqNo: int, deps: seq<int>, changed: bool): (r: Replica)
    requires s.Valid() && Awaits(s, slot) && |deps| == s.n
    ensures r.Valid()
  {
    var e := Entry(s.logs, s.me, slot).value;
    if e.state.Committed? || e.state.Accepted? || e.state.Executed? then s
    else
      var count := s.Count(slot) + 1;
      var x := Absorb(e, seqNo, deps, changed);
      if !Majority(s.n, count) then
        s.(replyCount := s.replyCount[slot := count], logs := Put(s.logs, s.me, slot, x))
      else if x.changed then
        var y := x.(state := Accepted);
        s.(replyCount := s.replyCount[slot := 0], logs := Put(s.logs, s.me, slot, y),
           out := Send(s.out, Thrifty(s.n, s.me), Accept(y)))
      else
        s.(replyCount := s.replyCount[slot := 0], logs := Put(s.logs, s.me, slot, x),
           committed := s.committed[slot := true], pending := s.pending + multiset{slot})
  }

  // The entry goes under the sender's row, whatever row the record names.
  function OnAccept(s: Replica, from: nat, inst: Instance): (r: Replica)
    requires s.Valid() && from < s.n
    ensures r.Valid()
  {
    s.(logs := Put(s.logs, from, inst.slot, inst), out := Send(s.out, [from], AcceptReply(inst.slot)))
  }

  function OnAcceptReply(s: Replica, slot: nat): (r: Replica)
    requires s.Valid()
    ensures r.Valid()
  {
    var count := s.Count(slot) + 1;
    var s' := s.(replyCount := s.replyCount[slot := count]);
    if !s.IsCommitted(slot) && Majority(s.n, count)
    then s'.(committed := s.committed[slot := true], pending := s.pending + multiset{slot})
    else s'
  }

  // The delayed commit of an own instance.
  function RunCommit(s: Replica, slot: nat): (r: Replica)
    requires s.Valid() && slot in s.pending && Entry(s.logs, s.me, slot).Some?
    ensures r.Valid()
  {
    var x := Entry(s.logs, s.me, slot).value.(state := Committed);
    s.(logs := Put(s.logs, s.me, slot, x), out := Send(s.out, Others(s.n, s.me), Commit(x)),
       pending := s.pending - multiset{slot})
  }

  function OnCommit(s: Replica, inst: Instance): (r: Replica)
    requires s.Valid() && inst.rep < s.n
    ensures r.Valid()
  {
    s.(logs := Put(s.logs, inst.rep, inst.slot, inst))
  }

  // What a message demands of the replica it reaches; the handler would fault otherwise.
  predicate Accepts(s: Replica, from: nat, m: Message) {
    match m
    case PreAccept(inst) => Fits(s, inst)
    case PreAcceptReply(slot, _, deps, _) => Awaits(s, slot) && |deps| == s.n
    case Accept(_) => true
    case AcceptReply(_) => true
    case Commit(inst) => inst.rep < s.n
  }

  function Handle(s: Replica, from: nat, m: Message): (r: Replica)
    requires s.Valid() && from < s.n && Accepts(s, from, m)
    ensures r.Valid()
  {
    match m
    case PreAccept(inst) => OnPreAccept(s, from, inst)
    case PreAcceptReply(slot, seqNo, deps, changed) => OnPreAcceptReply(s, slot, seqNo, deps, changed)
    case Accept(inst) => OnAccept(s, from, inst)
    case AcceptReply(slot) => OnAcceptReply(s, slot)
    case Commit(inst) => OnCommit(s, inst)
  }
}
