/** One replica as it runs: fields updated in place by its handlers, loops and all. */
module EpaxosReplica {
  import opened Options
  import opened EpaxosTypes
  import opened EpaxosScan
  import opened EpaxosHandlers
  import opened EpaxosDemands
  import opened EpaxosExecution
  import opened EpaxosAnswers

  // What the last answer about an instance makes of a replica that has counted and absorbed it.
  function Concluded(s: Replica, inst: Instance): Replica
    requires s.Valid()
  {
    var y := inst.(state := Accepted);
    if inst.changed
    then s.(replyCount := s.replyCount[inst.slot := 0], logs := Put(s.logs, s.me, inst.slot, y),
            out := Send(s.out, Thrifty(s.n, s.me), Accept(y)))
    else s.(replyCount := s.replyCount[inst.slot := 0], committed := s.committed[inst.slot := true],
            pending := s.pending + multiset{inst.slot})
  }

  // An answer is handled by counting it, recording what it raises, and concluding if it is the last.
  lemma AnswerInParts(s: Replica, slot: nat, seqNo: int, deps: seq<int>, changed: bool)
    requires s.Valid() && Awaits(s, slot) && |deps| == s.n
    requires var state := Entry(s.logs, s.me, slot).value.state;
      !state.Committed? && !state.Accepted? && !state.Executed?
    ensures var x := Absorb(Entry(s.logs, s.me, slot).value, seqNo, deps, changed);
      var s1 := s.(replyCount := s.replyCount[slot := s.Count(slot) + 1], logs := Put(s.logs, s.me, slot, x));
      OnPreAcceptReply(s, slot, seqNo, deps, changed) == if Majority(s.n, s.Count(slot) + 1) then Concluded(s1, x)
          else s1
  {
    var x := Absorb(Entry(s.logs, s.me, slot).value, seqNo, deps, changed);
    PutTwice(s.logs, s.me, slot, x, x.(state := Accepted));
    assert s.replyCount[slot := s.Count(slot) + 1][slot := 0] == s.replyCount[slot := 0];
  }

  lemma PutAtEnd(logs: Log, r: nat, x: Instance)
    requires r < |logs| && x.slot == |logs[r]|
    ensures Put(logs, r, x.slot, x) == logs[r := logs[r] + [Some(x)]]
  {
    assert Padded(logs[r], x.slot)[x.slot := Some(x)] == logs[r] + [Some(x)];
  }

  class Server {
    const n: nat
    const me: nat
    var logs: Log
    var replyCount: map<int, int>
    var committed: map<int, bool>
    var pending: multiset<int>
    var outChannels: seq<seq<Message>>
    var kvmap: map<string, Bytes>
    var executed: seq<int>

    // The value the specification speaks about.
    function State(): Replica
      reads this
    {
      Replica(n, me, logs, replyCount, committed, pending, outChannels, kvmap, executed)
    }

    constructor (n: nat, me: nat)
      requires n >= 2 && me < n
      ensures State() == Fresh(n, me) && State().Valid()
    {
      this.n, this.me := n, me;
      logs := seq(n, _ => []);
      replyCount, committed, pending := map[], map[], multiset{};
      outChannels := seq(n, _ => []);
      kvmap := map[];
      executed := seq(n, _ => -1);
    }

    static method SharesKey(a: seq<Operation>, b: seq<Operation>) returns (conflict: bool)
      ensures conflict == Conflict(a, b)
      ensures conflict <==> exists i, j :: 0 <= i < |a| && 0 <= j < |b| && a[i].key == b[j].key
    {
      conflict := false;
      for i := 0 to |a|
        invariant conflict <==> exists k, j :: 0 <= k < i && 0 <= j < |b| && a[k].key == b[j].key
      {
        var found := false;
        for j := 0 to |b|
          invariant !found && forall k :: 0 <= k < j ==> a[i].key != b[k].key
        {
          if a[i].key == b[j].key {
            found := true;
            break;
          }
        }
        if found {
          conflict := true;
        }
      }
    }

    method FindMaxConflict(ops: seq<Operation>) returns (maxSeq: int, deps: seq<int>)
      ensures (maxSeq, deps) == Scan(logs, ops)
    {
      maxSeq := 0;
      deps := seq(|logs|, _ => -1);
      for rep := 0 to |logs|
        invariant |deps| == |logs|
        invariant (maxSeq, deps[..rep]) == Scan(logs[..rep], ops)
        invariant forall r :: rep <= r < |logs| ==> deps[r] == -1
      {
        var row := logs[rep];
        ghost var m, before := maxSeq, deps[..rep];
        for i := |row| downto 0
          invariant |deps| == |logs| && deps[..rep] == before
          invariant forall r :: rep < r < |logs| ==> deps[r] == -1
          invariant ScanRow(row, ops, i, maxSeq, deps[rep]) == ScanRow(row, ops, |row|, m, -1)
        {
          var conflict := false;
          if row[i].Some? {
            conflict := SharesKey(row[i].value.ops, ops);
          }
          if conflict && row[i].value.seqNo > maxSeq {
            maxSeq := row[i].value.seqNo;
            deps := deps[rep := i];
          }
        }
        assert logs[..rep + 1][..rep] == logs[..rep];
        assert deps[..rep + 1] == before + [deps[rep]];
      }
      assert logs[..|logs|] == logs && deps[..|deps|] == deps;
    }

    // Puts the message into the channel of each destination.
    method Post(dests: seq<int>, m: Message)
      requires forall i :: 0 <= i < |dests| ==> 0 <= dests[i] < |outChannels|
      requires forall i, j :: 0 <= i < j < |dests| ==> dests[i] != dests[j]
      modifies this`outChannels
      ensures outChannels == Send(old(outChannels), dests, m)
    {
      for k := 0 to |dests|
        invariant |outChannels| == |old(outChannels)|
        invariant forall j :: 0 <= j < |outChannels| ==>
          outChannels[j] == if j in dests[..k] then old(outChannels)[j] + [m] else old(outChannels)[j]
      {
        outChannels := outChannels[dests[k] := outChannels[dests[k]] + [m]];
        assert dests[..k + 1] == dests[..k] + [dests[k]];
      }
      assert dests[..|dests|] == dests;
    }

    lemma ThriftyDests()
      requires State().Valid()
      ensures forall i :: 0 <= i < n / 2 ==> 0 <= Thrifty(n, me)[i] < n
      ensures forall i, j :: 0 <= i < j < n / 2 ==> Thrifty(n, me)[i] != Thrifty(n, me)[j]
    {
      forall i | 0 <= i < n / 2
        ensures Thrifty(n, me)[i] == if i + 1 + me < n then i + 1 + me else i + 1 + me - n
      {
        ThriftyAt(n, me, i);
      }
    }

    method HandleProposition(ops: seq<Operation>) returns (slot: nat)
      requires State().Valid()
      modifies this
      ensures State() == Propose(old(State()), ops) && slot == |old(logs)[me]|
      ensures HasProposed(old(State()), State(), ops)
    {
      var maxSeq, deps := FindMaxConflict(ops);
      slot := |logs[me]|;
      var inst := Instance(me, slot, maxSeq + 1, deps, ops, false, PreAccepted);
      logs := logs[me := logs[me] + [Some(inst)]];
      PutAtEnd(old(logs), me, inst);
      ThriftyDests();
      Post(Thrifty(n, me), PreAccept(inst));
      ProposalMeets(old(State()), ops);
    }

    // Logs the record under the row, growing it with holes as needed.
    method Record(row: nat, inst: Instance)
      requires row < |logs|
      modifies this`logs
      ensures logs == Put(old(logs), row, inst.slot, inst)
    {
      if |logs[row]| <= inst.slot {
        logs := logs[row := logs[row] + seq(inst.slot + 1 - |logs[row]|, _ => None)];
      }
      logs := logs[row := logs[row][inst.slot := Some(inst)]];
    }

    method HandlePreAcceptRequest(from: nat, req: Instance)
      requires State().Valid() && from < n && Fits(State(), req)
      modifies this
      ensures State() == OnPreAccept(old(State()), from, req)
      ensures HasPreAccepted(old(State()), State(), from, req)
    {
      var inst := req;
      var maxSeq, deps := FindMaxConflict(inst.ops);
      if inst.seqNo != maxSeq + 1 {
        inst := inst.(seqNo := Max(inst.seqNo, maxSeq + 1), changed := true);
      }
      for i := 0 to n
        invariant |inst.deps| == n && inst == req.(seqNo := inst.seqNo, deps := inst.deps, changed := inst.changed)
        invariant inst.seqNo == Max(req.seqNo, maxSeq + 1)
        invariant forall j :: 0 <= j < i ==> inst.deps[j] == Max(req.deps[j], deps[j])
        invariant forall j :: i <= j < n ==> inst.deps[j] == req.deps[j]
        invariant inst.changed == (req.changed || req.seqNo != maxSeq + 1 || req.deps[..i] != deps[..i])
      {
        assert req.deps[..i + 1] == req.deps[..i] + [req.deps[i]] && deps[..i + 1] == deps[..i] + [deps[i]];
        if inst.deps[i] != deps[i] {
          inst := inst.(deps := inst.deps[i := Max(inst.deps[i], deps[i])], changed := true);
          assert req.deps[..i + 1][i] != deps[..i + 1][i];
        }
      }
      assert req.deps[..n] == req.deps && deps[..n] == deps;
      assert inst.deps == JoinDeps(req.deps, deps);
      assert inst == Merged(old(logs), req);
      Record(inst.rep, inst);
      Post([from], PreAcceptReply(inst.slot, inst.seqNo, inst.deps, inst.changed));
      PeerJoins(old(State()), from, req);
    }

    // The leader's record raised to an answer that changed something.
    static method Raise(e: Instance, seqNo: int, deps: seq<int>, changed: bool) returns (inst: Instance)
      requires |e.deps| == |deps|
      ensures inst == Absorb(e, seqNo, deps, changed)
    {
      inst := e;
      if changed {
        inst := inst.(seqNo := Max(inst.seqNo, seqNo));
        for i := 0 to |deps|
          invariant |inst.deps| == |deps| && inst == e.(seqNo := Max(e.seqNo, seqNo), deps := inst.deps)
          invariant forall j :: 0 <= j < i ==> inst.deps[j] == Max(e.deps[j], deps[j])
          invariant forall j :: i <= j < |deps| ==> inst.deps[j] == e.deps[j]
        {
          if inst.deps[i] != deps[i] {
            inst := inst.(deps := inst.deps[i := Max(inst.deps[i], deps[i])]);
          }
        }
        assert inst.deps == JoinDeps(e.deps, deps);
        inst := inst.(changed := true);
      }
    }

    method HandlePreAcceptReply(slot: nat, seqNo: int, deps: seq<int>, changed: bool)
      requires State().Valid() && Awaits(State(), slot) && |deps| == n
      modifies this
      ensures State() == OnPreAcceptReply(old(State()), slot, seqNo, deps, changed)
    {
      var inst := logs[me][slot].value;
      if inst.state.Committed? || inst.state.Accepted? || inst.state.Executed? {
        return;
      }
      CountAnswer(slot, seqNo, deps, changed);
    }

    method CountAnswer(slot: nat, seqNo: int, deps: seq<int>, changed: bool)
      requires State().Valid() && Awaits(State(), slot) && |deps| == n
      requires var state := logs[me][slot].value.state; !state.Committed? && !state.Accepted? && !state.Executed?
      modifies this
      ensures State() == OnPreAcceptReply(old(State()), slot, seqNo, deps, changed)
    {
      AnswerInParts(State(), slot, seqNo, deps, changed);
      replyCount := replyCount[slot := if slot !in replyCount then 1 else replyCount[slot] + 1];
      var inst := Raise(logs[me][slot].value, seqNo, deps, changed);
      Record(me, inst);
      var count := replyCount[inst.slot];
      if count * 2 + 1 >= n {
        Conclude(inst);
      }
    }

    // All answers are in: ask for acceptance if anything changed, otherwise decide.
    method Conclude(inst: Instance)
      requires State().Valid()
      modifies this
      ensures State() == Concluded(old(State()), inst)
    {
      replyCount := replyCount[inst.slot := 0];
      if inst.changed {
        var y := inst.(state := Accepted);
        Record(me, y);
        ThriftyDests();
        Post(Thrifty(n, me), Accept(y));
      } else {
        committed := committed[inst.slot := true];
        pending := pending + multiset{inst.slot};
      }
    }

    // The goroutine launched by a decision, when it gets to run.
    method RunPendingCommit(slot: nat)
      requires State().Valid() && slot in pending && Awaits(State(), slot)
      modifies this
      ensures State() == RunCommit(old(State()), slot)
    {
      var inst := logs[me][slot].value.(state := Committed);
      pending := pending - multiset{slot};
      Record(me, inst);
      var dests := Others(n, me);
      forall i, j | 0 <= i < j < |dests| ensures dests[i] != dests[j] {}
      Post(dests, Commit(inst));
    }

    method HandleAcceptRequest(from: nat, inst: Instance)
      requires State().Valid() && from < n
      modifies this
      ensures State() == OnAccept(old(State()), from, inst)
    {
      Record(from, inst);
      Post([from], AcceptReply(inst.slot));
    }

    method HandleAcceptReply(slot: nat)
      requires State().Valid()
      modifies this
      ensures State() == OnAcceptReply(old(State()), slot)
    {
      replyCount := replyCount[slot := (if slot in replyCount then replyCount[slot] else 0) + 1];
      if slot !in committed || !committed[slot] {
        if replyCount[slot] * 2 + 1 >= n {
          committed := committed[slot := true];
          pending := pending + multiset{slot};
        }
      }
    }

    method HandleCommit(inst: Instance)
      requires State().Valid() && inst.rep < n
      modifies this
      ensures State() == OnCommit(old(State()), inst)
    {
      Record(inst.rep, inst);
    }

    // Applies operations to the key-value map; reads come back with their value.
    method Apply(ops: seq<Operation>) returns (done: seq<Operation>)
      modifies this`kvmap
      ensures (kvmap, done) == RunOps(old(kvmap), ops)
      ensures forall key :: Shows(old(kvmap), ops, |ops|, key, Lookup(kvmap, key))
      ensures |done| == |ops| && forall i :: 0 <= i < |ops| ==> ComesBack(old(kvmap), ops, i, done[i])
    {
      BatchTells(kvmap, ops);
      done := [];
      for i := 0 to |ops|
        invariant (kvmap, done) == RunOps(old(kvmap), ops[..i])
      {
        var op := ops[i];
        ghost var prefix := ops[..i + 1];
        assert prefix[..i] == ops[..i] && prefix[i] == op;
        match op.kind {
          case Read => op := op.(value := if op.key in kvmap then kvmap[op.key] else None);
          case Write => kvmap := kvmap[op.key := op.value];
          case Del => kvmap := kvmap - {op.key};
          case _ =>
        }
        done := done + [op];
      }
      assert ops[..|ops|] == ops;
    }

    // Applies one logged instance and marks it executed.
    method Execute(v: Node)
      requires State().Valid() && ValidNode(logs, v)
      modifies this`logs, this`kvmap
      ensures logs == Put(old(logs), v.rep, v.slot, Ran(old(kvmap), Inst(old(logs), v)))
      ensures kvmap == RunOps(old(kvmap), Inst(old(logs), v).ops).0
    {
      var inst := logs[v.rep][v.slot].value;
      var done := Apply(inst.ops);
      logs := logs[v.rep := logs[v.rep][v.slot := Some(inst.(ops := done, state := Executed))]];
    }

    // One node of the search: true when the search must give up here.
    method VisitNode(v: Node, ghost p: Progress) returns (stop: bool, ghost q: Progress)
      requires State().Valid() && p.s == State() && !p.stopped && ValidNode(logs, v)
      modifies this
      ensures q == Visit(p, v) && q.s == State() && stop == q.stopped
    {
      q := Visit(p, v);
      stop := false;
      if logs[v.rep][v.slot].value.state.Committed? {
        var inst := logs[v.rep][v.slot].value;
        for rep := 0 to |inst.deps|
          invariant State() == p.s && !stop
          invariant forall r :: 0 <= r < rep && inst.deps[r] >= 0 ==> DepReady(logs, r, inst.deps[r])
        {
          if inst.deps[rep] >= 0 && !DepReady(logs, rep, inst.deps[rep]) {
            return true, q;
          }
        }
        Execute(v);
        var last := Node(v.rep, executed[v.rep]);
        if last.slot == -1 || (ValidNode(logs, last) && Later(logs, last, v)) {
          executed := executed[v.rep := v.slot];
        }
      }
    }

    method RunComponent(scc: seq<Node>, ghost p: Progress) returns (stop: bool, ghost q: Progress)
      requires State().Valid() && p.s == State() && !p.stopped
      requires forall i :: 0 <= i < |scc| ==> ValidNode(logs, scc[i])
      modifies this
      ensures q == VisitAll(p, scc, |scc|) && q.s == State() && stop == q.stopped
    {
      q := p;
      for i := 0 to |scc|
        invariant q == VisitAll(p, scc, i) && q.s == State() && !q.stopped
      {
        VisitAllRan(p, scc, i);
        assert EntryRan(Entry(p.s.logs, scc[i].rep, scc[i].slot), Entry(logs, scc[i].rep, scc[i].slot));
        stop, q := VisitNode(scc[i], q);
        if stop {
          StoppedStays(p, scc, i + 1, |scc|);
          return;
        }
      }
      stop := false;
    }

    // Runs the components in the order Tarjan's algorithm gave them, each sorted by Seq.
    method RunComponents(order: seq<seq<Node>>)
      requires State().Valid()
      requires forall c, i :: 0 <= c < |order| && 0 <= i < |order[c]| ==> ValidNode(logs, order[c][i])
      modifies this
      ensures State() == ExecuteSome(old(State()), order)
    {
      ghost var p := Progress(State(), [], false);
      for c := 0 to |order|
        invariant p == ExecuteTo(old(State()), order, c) && p.s == State() && !p.stopped
      {
        ExecuteToRan(old(State()), order, c);
        forall i | 0 <= i < |order[c]| ensures ValidNode(logs, order[c][i]) {
          var v := order[c][i];
          assert EntryRan(Entry(old(logs), v.rep, v.slot), Entry(p.s.logs, v.rep, v.slot));
        }
        var stop;
        stop, p := RunComponent(order[c], p);
        if stop {
          StoppedForGood(old(State()), order, c + 1, |order|);
          return;
        }
      }
    }
  }

  lemma {:induction false} StoppedStays(p: Progress, scc: seq<Node>, i: nat, j: nat)
    requires p.s.Valid() && i <= j <= |scc| && VisitAll(p, scc, i).stopped
    ensures VisitAll(p, scc, j) == VisitAll(p, scc, i)
  {
    if i < j {
      StoppedStays(p, scc, i, j - 1);
    }
  }

  lemma {:induction false} StoppedForGood(s: Replica, order: seq<seq<Node>>, i: nat, j: nat)
    requires s.Valid() && i <= j <= |order| && ExecuteTo(s, order, i).stopped
    ensures ExecuteTo(s, order, j) == ExecuteTo(s, order, i)
  {
    if i < j {
      StoppedForGood(s, order, i, j - 1);
      StoppedStays(ExecuteTo(s, order, j - 1), order[j - 1], 0, |order[j - 1]|);
    }
  }
}
